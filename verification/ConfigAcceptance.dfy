/** The configuration schema that `validate` (tests/config_corpus.py) enforces, stated of
    the document alone: which values are permitted where, with no order of checks, no
    error and no table. `validate` accepts exactly the documents that satisfy it. */
module ConfigAcceptance {
  import opened Common
  import opened Json
  import opened ConfigValidator
  import opened AcceptedConfig
  import opened SchemaVersion
  import Sweep = CredentialSweep
  import Path = PathGrammar
  import Url = UrlAuthority

  // --- values ------------------------------------------------------------------------------

  /** The value under `key`; a missing one satisfies nothing that `null` does not. */
  function Value(node: Node, key: string): Json {
    match Get(node, key)
    case None => Null
    case Some(v) => v
  }

  predicate IntIn(v: Json, low: int, high: int) {
    v.Number? && low <= v.n <= high
  }

  predicate TextIn(v: Json, low: int, high: int) {
    v.Text? && low <= |v.s| <= high
  }

  predicate ListIn(v: Json, low: int, high: int) {
    v.List? && low <= |v.items| <= high
  }

  predicate Among(v: Json, choices: set<string>) {
    v.Text? && v.s in choices
  }

  predicate OnlyKeys(node: Node, allowed: set<string>) {
    forall i :: 0 <= i < |node| ==> node[i].key in allowed
  }

  /** An object with no keys but these. */
  predicate Shaped(v: Json, allowed: set<string>) {
    v.Object? && OnlyKeys(v.fields, allowed)
  }

  /** Texts satisfying `fits`, no two alike. */
  ghost predicate DistinctTexts(items: seq<Json>, fits: Json -> bool) {
    && (forall i :: 0 <= i < |items| ==> items[i].Text? && fits(items[i]))
    && (forall i, j :: 0 <= i < j < |items| ==> items[i] != items[j])
  }

  // --- regular expressions: one class of characters, then others ---------------------------

  type Class = seq<(char, char)>

  predicate In(c: char, ranges: Class) {
    exists i :: 0 <= i < |ranges| && ranges[i].0 <= c <= ranges[i].1
  }

  predicate Fits(s: string, first: Class, rest: Class, limit: nat) {
    1 <= |s| <= limit && In(s[0], first) && forall i :: 0 < i < |s| ==> In(s[i], rest)
  }

  const ID_FIRST: Class := [('a', 'z'), ('0', '9')]
  const ID_REST: Class := [('a', 'z'), ('0', '9'), ('.', '.'), ('_', '_'), ('-', '-')]
  const ENV_FIRST: Class := [('A', 'Z'), ('_', '_')]
  const ENV_REST: Class := [('A', 'Z'), ('0', '9'), ('_', '_')]
  const ALIAS_FIRST: Class := [('A', 'Z'), ('a', 'z'), ('0', '9')]
  const ALIAS_REST: Class := [('A', 'Z'), ('a', 'z'), ('0', '9'), ('.', '.'), ('_', '_'), (':', ':'), ('/', '/'), ('-', '-')]
  const HEADER: Class := [('A', 'Z'), ('a', 'z'), ('0', '9'), ('-', '-')]

  predicate IdText(v: Json) {
    v.Text? && Fits(v.s, ID_FIRST, ID_REST, 64)
  }

  predicate EnvText(v: Json) {
    v.Text? && Fits(v.s, ENV_FIRST, ENV_REST, 128)
  }

  predicate AliasText(v: Json) {
    v.Text? && Fits(v.s, ALIAS_FIRST, ALIAS_REST, 128)
  }

  predicate HeaderText(v: Json) {
    v.Text? && Fits(v.s, HEADER, HEADER, 64)
  }

  lemma IdChars(c: char)
    ensures In(c, ID_FIRST) <==> IsLower(c) || Digit(c)
    ensures In(c, ID_REST) <==> IsLower(c) || Digit(c) || c in "._-"
  {
    assert ID_FIRST[0] == ('a', 'z') && ID_FIRST[1] == ('0', '9');
    assert ID_REST[0] == ('a', 'z') && ID_REST[1] == ('0', '9') && ID_REST[2] == ('.', '.') && ID_REST[3] == ('_', '_') && ID_REST[4] == ('-', '-');
    assert "._-"[0] == '.' && "._-"[1] == '_' && "._-"[2] == '-';
  }

  lemma EnvChars(c: char)
    ensures In(c, ENV_FIRST) <==> Upper(c) || c == '_'
    ensures In(c, ENV_REST) <==> Upper(c) || Digit(c) || c == '_'
  {
    assert ENV_FIRST[0] == ('A', 'Z') && ENV_FIRST[1] == ('_', '_');
    assert ENV_REST[0] == ('A', 'Z') && ENV_REST[1] == ('0', '9') && ENV_REST[2] == ('_', '_');
  }

  lemma AliasChars(c: char)
    ensures In(c, ALIAS_FIRST) <==> IsLower(c) || Upper(c) || Digit(c)
    ensures In(c, ALIAS_REST) <==> IsLower(c) || Upper(c) || Digit(c) || c in "._:/-"
  {
    assert ALIAS_FIRST[0] == ('A', 'Z') && ALIAS_FIRST[1] == ('a', 'z') && ALIAS_FIRST[2] == ('0', '9');
    assert ALIAS_REST[0] == ('A', 'Z') && ALIAS_REST[1] == ('a', 'z') && ALIAS_REST[2] == ('0', '9') && ALIAS_REST[3] == ('.', '.');
    assert ALIAS_REST[4] == ('_', '_') && ALIAS_REST[5] == (':', ':') && ALIAS_REST[6] == ('/', '/') && ALIAS_REST[7] == ('-', '-');
    assert "._:/-"[0] == '.' && "._:/-"[1] == '_' && "._:/-"[2] == ':' && "._:/-"[3] == '/' && "._:/-"[4] == '-';
  }

  lemma HeaderChars(c: char)
    ensures In(c, HEADER) <==> IsLower(c) || Upper(c) || Digit(c) || c == '-'
  {
    assert HEADER[0] == ('A', 'Z') && HEADER[1] == ('a', 'z') && HEADER[2] == ('0', '9') && HEADER[3] == ('-', '-');
  }

  lemma IdIff(s: string)
    ensures IsId(s) <==> IdText(Text(s))
  {
    forall c {
      IdChars(c);
    }
  }

  lemma EnvIff(s: string)
    ensures IsEnv(s) <==> EnvText(Text(s))
  {
    forall c {
      EnvChars(c);
    }
  }

  lemma AliasIff(s: string)
    ensures IsAlias(s) <==> AliasText(Text(s))
  {
    forall c {
      AliasChars(c);
    }
  }

  lemma HeaderIff(s: string)
    ensures IsHeader(s) <==> HeaderText(Text(s))
  {
    forall c {
      HeaderChars(c);
    }
  }

  // --- one field ----------------------------------------------------------------------------

  lemma FieldsIff(node: Node, key: string, low: int, high: int, at: Pointer)
    ensures Int(node, key, low, high, at).Ok? <==> IntIn(Value(node, key), low, high)
    ensures Array(node, key, low, high, at).Ok? <==> ListIn(Value(node, key), low, high)
  {
  }

  lemma FlagIff(node: Node, key: string, at: Pointer)
    ensures Boolean(node, key, at).Ok? <==> Value(node, key).Bool?
  {
  }

  lemma ChoiceIff(node: Node, key: string, choices: set<string>, at: Pointer)
    ensures Enum(node, key, choices, at).Ok? <==> Among(Value(node, key), choices)
  {
  }

  lemma DistinctIff(items: seq<Json>, ok: string -> bool, fits: Json -> bool, rule: string, at: Pointer)
    requires forall s :: ok(s) <==> fits(Text(s))
    ensures DistinctFrom(items, ok, rule, at, 0, {}).Ok? <==> DistinctTexts(items, fits)
  {
    DistinctMeans(items, ok, rule, at, 0, {});
    if DistinctTexts(items, fits) {
      forall i, j | 0 <= i < j < |items|
        ensures items[i].s != items[j].s
      {
        assert items[i] == Text(items[i].s) && items[j] == Text(items[j].s);
      }
    }
  }

  predicate AllowInsecureOk(node: Node) {
    Get(node, "allow_insecure_private_http").None? || Value(node, "allow_insecure_private_http").Bool?
  }

  /** A URL within the outbound policy, under the flag beside it. */
  ghost predicate UrlOk(node: Node, key: string, parse: Url.AddressParser) {
    && AllowInsecureOk(node) && TextIn(Value(node, key), 1, 2048)
    && UrlPermitted(node, key, parse)
  }

  lemma UrlIff(node: Node, key: string, at: Pointer, parse: Url.AddressParser)
    ensures var insecure := InsecureFlag(node, at);
            insecure.Ok? && UrlField(node, key, insecure.value, at, parse).Ok? <==> UrlOk(node, key, parse)
  {
  }

  ghost predicate PathOk(v: Json) {
    v.Text? && Path.Check(v.s) == Path.Accepted
  }

  lemma PathIff(node: Node, key: string, at: Pointer)
    ensures CheckPathField(node, key, at).Ok? <==> PathOk(Value(node, key))
  {
  }

  // --- parts of entries ------------------------------------------------------------------------

  /** A reference to an environment variable. */
  predicate ReferenceOk(v: Json) {
    && Shaped(v, {"source", "name"})
    && Value(v.fields, "source") == Text("env") && EnvText(Value(v.fields, "name"))
  }

  predicate AuthOk(v: Json) {
    && v.Object?
    && match Value(v.fields, "type")
       case Text(kind) =>
         || (kind == "none" && OnlyKeys(v.fields, {"type"}))
         || (kind == "bearer_env" && OnlyKeys(v.fields, {"type", "env"}) && EnvText(Value(v.fields, "env")))
         || (kind == "header_env" && OnlyKeys(v.fields, {"type", "header", "value"})
             && HeaderText(Value(v.fields, "header")) && ReferenceOk(Value(v.fields, "value")))
       case _ => false
  }

  predicate TimeoutsOk(v: Json) {
    && Shaped(v, {"connect_ms", "request_ms", "idle_stream_ms"})
    && IntIn(Value(v.fields, "connect_ms"), 100, 600_000)
    && IntIn(Value(v.fields, "request_ms"), 1000, 86_400_000)
    && IntIn(Value(v.fields, "idle_stream_ms"), 1000, 3_600_000)
  }

  lemma ReferenceIff(v: Json, at: Pointer, nameAt: Pointer)
    ensures CheckReference(v, at, nameAt).Ok? <==> ReferenceOk(v)
  {
    if v.Object? {
      KeysAllowed(v.fields, {"source", "name"}, at);
      ChoiceIff(v.fields, "source", {"env"}, at);
      if Value(v.fields, "name").Text? {
        EnvIff(Value(v.fields, "name").s);
      }
    }
  }

  lemma TextFieldIff(node: Node, key: string, at: Pointer)
    ensures Str(node, key, at).Ok? <==> Value(node, key).Text?
    ensures Str(node, key, at).Ok? ==> Value(node, key) == Text(Str(node, key, at).value)
  {
  }

  lemma BearerIff(auth: Node, at: Pointer)
    ensures Str(auth, "env", at).Ok? && IsEnv(Str(auth, "env", at).value) <==> EnvText(Value(auth, "env"))
  {
    TextFieldIff(auth, "env", at);
    if Value(auth, "env").Text? {
      EnvIff(Value(auth, "env").s);
    }
  }

  lemma HeaderFieldIff(auth: Node, at: Pointer)
    ensures Str(auth, "header", at).Ok? && IsHeader(Str(auth, "header", at).value) <==> HeaderText(Value(auth, "header"))
  {
    TextFieldIff(auth, "header", at);
    if Value(auth, "header").Text? {
      HeaderIff(Value(auth, "header").s);
    }
  }

  lemma NoAuthIff(auth: Node, at: Pointer)
    requires Get(auth, "type") == Some(Text("none"))
    ensures CheckAuth(Object(auth), at).Ok? <==> OnlyKeys(auth, {"type"})
  {
    KeysAllowed(auth, {"type"}, at);
  }

  lemma BearerAuthIff(auth: Node, at: Pointer)
    requires Get(auth, "type") == Some(Text("bearer_env"))
    ensures CheckAuth(Object(auth), at).Ok? <==> OnlyKeys(auth, {"type", "env"}) && EnvText(Value(auth, "env"))
  {
    KeysAllowed(auth, {"type", "env"}, at);
    BearerIff(auth, at);
    assert "none"[0] == 'n' && "bearer_env"[0] == 'b';
  }

  lemma HeaderAuthIff(auth: Node, at: Pointer)
    requires Get(auth, "type") == Some(Text("header_env"))
    ensures CheckAuth(Object(auth), at).Ok? <==>
            OnlyKeys(auth, {"type", "header", "value"}) && HeaderText(Value(auth, "header")) && ReferenceOk(Value(auth, "value"))
  {
    KeysAllowed(auth, {"type", "header", "value"}, at);
    HeaderFieldIff(auth, at);
    ReferenceIff(Value(auth, "value"), at + [Key("value")], at + [Key("value"), Key("name")]);
    assert "none"[0] == 'n' && "bearer_env"[0] == 'b' && "header_env"[0] == 'h';
  }

  lemma AuthIff(v: Json, at: Pointer)
    ensures CheckAuth(v, at).Ok? <==> AuthOk(v)
  {
    if v.Object? {
      var auth := v.fields;
      ChoiceIff(auth, "type", {"none", "bearer_env", "header_env"}, at);
      if Get(auth, "type") == Some(Text("none")) {
        NoAuthIff(auth, at);
        assert "none"[0] == 'n' && "bearer_env"[0] == 'b' && "header_env"[0] == 'h';
      } else if Get(auth, "type") == Some(Text("bearer_env")) {
        BearerAuthIff(auth, at);
        assert "bearer_env"[0] == 'b' && "header_env"[0] == 'h';
      } else if Get(auth, "type") == Some(Text("header_env")) {
        HeaderAuthIff(auth, at);
      }
    }
  }

  lemma TimeoutsIff(v: Json, at: Pointer)
    ensures CheckTimeouts(v, at).Ok? <==> TimeoutsOk(v)
  {
    if v.Object? {
      KeysAllowed(v.fields, {"connect_ms", "request_ms", "idle_stream_ms"}, at);
      FieldsIff(v.fields, "connect_ms", 100, 600_000, at);
      FieldsIff(v.fields, "request_ms", 1000, 86_400_000, at);
      FieldsIff(v.fields, "idle_stream_ms", 1000, 3_600_000, at);
    }
  }

  // --- settings ------------------------------------------------------------------------------

  predicate ListenerOk(v: Json) {
    && Shaped(v, {"host", "port", "auth", "request_header_max_bytes", "request_body_max_bytes",
                  "idle_timeout_ms", "expose_unavailable_models"})
    && var l := v.fields;
       && TextIn(Value(l, "host"), 1, 255)
       && ListenerSizesOk(l)
       && AuthOk(Value(l, "auth"))
       && (Value(l, "host").s in {"127.0.0.1", "::1", "localhost"} || Value(Value(l, "auth").fields, "type") != Text("none"))
  }

  predicate ListenerSizesOk(l: Node) {
    && IntIn(Value(l, "port"), 1, 65535)
    && IntIn(Value(l, "request_header_max_bytes"), 4096, 1_048_576)
    && IntIn(Value(l, "request_body_max_bytes"), 1024, 67_108_864)
    && IntIn(Value(l, "idle_timeout_ms"), 1000, 3_600_000)
    && (Get(l, "expose_unavailable_models").None? || Value(l, "expose_unavailable_models").Bool?)
  }

  ghost predicate ControlOk(v: Json) {
    && Shaped(v, {"socket_path", "mode", "frame_max_bytes"})
    && PathOk(Value(v.fields, "socket_path"))
    && Value(v.fields, "mode") == Text("0600")
    && IntIn(Value(v.fields, "frame_max_bytes"), 4096, 4_194_304)
  }

  ghost predicate StorageOk(v: Json) {
    && Shaped(v, {"database_path", "journal_mode", "busy_timeout_ms", "request_metadata_retention_days", "store_payloads"})
    && PathOk(Value(v.fields, "database_path"))
    && Value(v.fields, "journal_mode") == Text("wal")
    && IntIn(Value(v.fields, "busy_timeout_ms"), 0, 60_000)
    && IntIn(Value(v.fields, "request_metadata_retention_days"), 0, 3650)
    && Value(v.fields, "store_payloads").Bool?
  }

  ghost predicate LoggingOk(v: Json) {
    && Shaped(v, {"level", "format", "destination", "file_path", "include_request_metadata",
                  "include_payloads", "redact_headers"})
    && var l := v.fields;
       && Among(Value(l, "level"), {"trace", "debug", "info", "warn", "error", "fatal"})
       && Among(Value(l, "format"), {"jsonl", "text"})
       && Among(Value(l, "destination"), {"stderr", "file"})
       && Value(l, "include_request_metadata").Bool? && Value(l, "include_payloads").Bool?
       && (Value(l, "destination") == Text("file") ==> PathOk(Value(l, "file_path")))
       && ListIn(Value(l, "redact_headers"), 0, 128) && DistinctTexts(Items(l, "redact_headers"), HeaderText)
  }

  predicate LimitsOk(v: Json) {
    && Shaped(v, {"max_active_requests", "max_queued_requests", "json_max_depth", "json_string_max_bytes",
                  "sse_event_max_bytes", "mcp_frame_max_bytes", "stderr_line_max_bytes"})
    && var l := v.fields;
       && IntIn(Value(l, "max_active_requests"), 1, 65535)
       && IntIn(Value(l, "max_queued_requests"), 0, 65535)
       && IntIn(Value(l, "json_max_depth"), 4, 256)
       && IntIn(Value(l, "json_string_max_bytes"), 1024, 67_108_864)
       && IntIn(Value(l, "sse_event_max_bytes"), 1024, 16_777_216)
       && IntIn(Value(l, "mcp_frame_max_bytes"), 1024, 67_108_864)
       && IntIn(Value(l, "stderr_line_max_bytes"), 256, 1_048_576)
  }

  lemma ListenerSizesIff(l: Node, at: Pointer)
    ensures CheckListenerSizes(l, at).Ok? <==> ListenerSizesOk(l)
  {
    FieldsIff(l, "port", 1, 65535, at);
    FieldsIff(l, "request_header_max_bytes", 4096, 1_048_576, at);
    FieldsIff(l, "request_body_max_bytes", 1024, 67_108_864, at);
    FieldsIff(l, "idle_timeout_ms", 1000, 3_600_000, at);
    FlagIff(l, "expose_unavailable_models", at);
  }

  lemma AuthFieldIff(node: Node, at: Pointer)
    ensures CheckAuthField(node, at).Ok? <==> AuthOk(Value(node, "auth"))
    ensures CheckAuthField(node, at).Ok? ==> Value(Value(node, "auth").fields, "type") == Text(CheckAuthField(node, at).value)
  {
    AuthIff(Value(node, "auth"), at + [Key("auth")]);
  }

  lemma ListenerIff(root: Node)
    ensures CheckListener(root).Ok? <==> ListenerOk(Value(root, "listener"))
  {
    var v, at := Value(root, "listener"), [Key("listener")];
    if v.Object? {
      KeysAllowed(v.fields, {"host", "port", "auth", "request_header_max_bytes", "request_body_max_bytes",
                             "idle_timeout_ms", "expose_unavailable_models"}, at);
      TextFieldIff(v.fields, "host", at);
      ListenerSizesIff(v.fields, at);
      AuthFieldIff(v.fields, at);
    }
  }

  lemma ControlIff(root: Node)
    ensures CheckControl(root).Ok? <==> ControlOk(Value(root, "control"))
  {
    var v, at := Value(root, "control"), [Key("control")];
    if v.Object? {
      KeysAllowed(v.fields, {"socket_path", "mode", "frame_max_bytes"}, at);
      PathIff(v.fields, "socket_path", at);
      ChoiceIff(v.fields, "mode", {"0600"}, at);
      FieldsIff(v.fields, "frame_max_bytes", 4096, 4_194_304, at);
    }
  }

  lemma StorageIff(root: Node)
    ensures CheckStorage(root).Ok? <==> StorageOk(Value(root, "storage"))
  {
    var v, at := Value(root, "storage"), [Key("storage")];
    if v.Object? {
      KeysAllowed(v.fields, {"database_path", "journal_mode", "busy_timeout_ms", "request_metadata_retention_days", "store_payloads"}, at);
      PathIff(v.fields, "database_path", at);
      ChoiceIff(v.fields, "journal_mode", {"wal"}, at);
      FieldsIff(v.fields, "busy_timeout_ms", 0, 60_000, at);
      FieldsIff(v.fields, "request_metadata_retention_days", 0, 3650, at);
      FlagIff(v.fields, "store_payloads", at);
    }
  }

  lemma RedactedIff(l: Node, at: Pointer)
    ensures var items := Array(l, "redact_headers", 0, 128, at);
            items.Ok? && DistinctFrom(items.value, IsHeader, "header name is not permitted", at + [Key("redact_headers")], 0, {}).Ok?
            <==> ListIn(Value(l, "redact_headers"), 0, 128) && DistinctTexts(Items(l, "redact_headers"), HeaderText)
  {
    FieldsIff(l, "redact_headers", 0, 128, at);
    forall s {
      HeaderIff(s);
    }
    DistinctIff(Items(l, "redact_headers"), IsHeader, HeaderText, "header name is not permitted", at + [Key("redact_headers")]);
  }

  lemma LoggingIff(root: Node)
    ensures CheckLogging(root).Ok? <==> LoggingOk(Value(root, "logging"))
  {
    var v, at := Value(root, "logging"), [Key("logging")];
    if v.Object? {
      var l := v.fields;
      KeysAllowed(l, {"level", "format", "destination", "file_path", "include_request_metadata",
                      "include_payloads", "redact_headers"}, at);
      ChoiceIff(l, "level", {"trace", "debug", "info", "warn", "error", "fatal"}, at);
      ChoiceIff(l, "format", {"jsonl", "text"}, at);
      ChoiceIff(l, "destination", {"stderr", "file"}, at);
      FlagIff(l, "include_request_metadata", at);
      FlagIff(l, "include_payloads", at);
      PathIff(l, "file_path", at);
      RedactedIff(l, at);
    }
  }

  lemma LimitsIff(root: Node)
    ensures CheckLimits(root).Ok? <==> LimitsOk(Value(root, "limits"))
  {
    var v, at := Value(root, "limits"), [Key("limits")];
    if v.Object? {
      KeysAllowed(v.fields, {"max_active_requests", "max_queued_requests", "json_max_depth", "json_string_max_bytes",
                             "sse_event_max_bytes", "mcp_frame_max_bytes", "stderr_line_max_bytes"}, at);
    }
  }

  // --- providers -----------------------------------------------------------------------------

  predicate CapabilitiesOk(v: Json) {
    && Shaped(v, {"responses", "chat_completions", "streaming", "tools", "vision", "json_schema"})
    && Value(v.fields, "chat_completions").Bool? && Value(v.fields, "json_schema").Bool? && Value(v.fields, "responses").Bool?
    && Value(v.fields, "streaming").Bool? && Value(v.fields, "tools").Bool? && Value(v.fields, "vision").Bool?
  }

  predicate HealthOk(v: Json) {
    && Shaped(v, {"path", "interval_ms", "failure_threshold", "success_threshold", "open_cooldown_ms"})
    && TextIn(Value(v.fields, "path"), 1, 512) && Value(v.fields, "path").s[0] == '/'
    && IntIn(Value(v.fields, "interval_ms"), 1000, 3_600_000)
    && IntIn(Value(v.fields, "failure_threshold"), 1, 100)
    && IntIn(Value(v.fields, "success_threshold"), 1, 100)
    && IntIn(Value(v.fields, "open_cooldown_ms"), 1000, 3_600_000)
  }

  ghost predicate ProviderOk(entry: Json, parse: Url.AddressParser) {
    && Shaped(entry, {"id", "display_name", "adapter", "base_url", "auth", "enabled", "required", "max_concurrency", "timeouts",
                      "capabilities", "health", "allow_insecure_private_http"})
    && IdText(Value(entry.fields, "id"))
    && ProviderPlainOk(entry.fields, parse) && ProviderNestedOk(entry.fields)
  }

  ghost predicate ProviderPlainOk(p: Node, parse: Url.AddressParser) {
    && TextIn(Value(p, "display_name"), 1, 128)
    && Among(Value(p, "adapter"), {"openai_responses", "openai_chat", "openai_dual"})
    && UrlOk(p, "base_url", parse)
    && Value(p, "enabled").Bool? && Value(p, "required").Bool?
    && IntIn(Value(p, "max_concurrency"), 1, 4096)
  }

  predicate ProviderNestedOk(p: Node) {
    && AuthOk(Value(p, "auth")) && TimeoutsOk(Value(p, "timeouts"))
    && CapabilitiesOk(Value(p, "capabilities")) && HealthOk(Value(p, "health"))
  }

  lemma {:induction false} CapabilitiesFromIff(caps: Node, at: Pointer, i: nat, enabled: set<string>)
    requires i <= |SORTED_CAPABILITIES|
    ensures CapabilitiesFrom(caps, at, i, enabled).Ok? <==>
            forall k :: i <= k < |SORTED_CAPABILITIES| ==> Value(caps, SORTED_CAPABILITIES[k]).Bool?
    decreases |SORTED_CAPABILITIES| - i
  {
    if i < |SORTED_CAPABILITIES| {
      FlagIff(caps, SORTED_CAPABILITIES[i], at);
      var on := Boolean(caps, SORTED_CAPABILITIES[i], at);
      if on.Ok? {
        CapabilitiesFromIff(caps, at, i + 1, if on.value then enabled + {SORTED_CAPABILITIES[i]} else enabled);
      }
    }
  }

  lemma CapabilitiesIff(v: Json, at: Pointer)
    ensures CheckCapabilities(v, at).Ok? <==> CapabilitiesOk(v)
  {
    if v.Object? {
      KeysAllowed(v.fields, {"responses", "chat_completions", "streaming", "tools", "vision", "json_schema"}, at);
      CapabilitiesFromIff(v.fields, at, 0, {});
      var names := SORTED_CAPABILITIES;
      assert names[0] == "chat_completions" && names[1] == "json_schema" && names[2] == "responses";
      assert names[3] == "streaming" && names[4] == "tools" && names[5] == "vision";
    }
  }

  lemma HealthIff(v: Json, at: Pointer)
    ensures CheckHealth(v, at).Ok? <==> HealthOk(v)
  {
    if v.Object? {
      KeysAllowed(v.fields, {"path", "interval_ms", "failure_threshold", "success_threshold", "open_cooldown_ms"}, at);
      TextFieldIff(v.fields, "path", at);
    }
  }

  lemma ProviderNestedIff(p: Node, at: Pointer)
    ensures CheckProviderRest(p, at).Ok? <==> ProviderNestedOk(p)
  {
    AuthIff(Value(p, "auth"), at + [Key("auth")]);
    TimeoutsIff(Value(p, "timeouts"), at + [Key("timeouts")]);
    CapabilitiesIff(Value(p, "capabilities"), at + [Key("capabilities")]);
    HealthIff(Value(p, "health"), at + [Key("health")]);
  }

  lemma ProviderBodyIff(p: Node, id: string, at: Pointer, parse: Url.AddressParser)
    ensures CheckProviderBody(p, id, at, parse).Ok? <==> ProviderPlainOk(p, parse) && ProviderNestedOk(p)
  {
    TextFieldIff(p, "display_name", at);
    ChoiceIff(p, "adapter", {"openai_responses", "openai_chat", "openai_dual"}, at);
    UrlIff(p, "base_url", at, parse);
    FlagIff(p, "enabled", at);
    FlagIff(p, "required", at);
    FieldsIff(p, "max_concurrency", 1, 4096, at);
    ProviderNestedIff(p, at);
  }

  lemma IdFieldIff(node: Node, at: Pointer)
    ensures NewId(node, [], at).Ok? <==> IdText(Value(node, "id"))
  {
    TextFieldIff(node, "id", at);
    if Value(node, "id").Text? {
      IdIff(Value(node, "id").s);
    }
  }

  /** A provider is acceptable on its own exactly when it follows the schema. */
  lemma ProviderIff(entry: Json, at: Pointer, parse: Url.AddressParser)
    ensures CheckProvider(entry, at, [], parse).Ok? <==> ProviderOk(entry, parse)
  {
    if entry.Object? {
      KeysAllowed(entry.fields, PROVIDER_KEYS, at);
      IdFieldIff(entry.fields, at);
      if Value(entry.fields, "id").Text? {
        ProviderBodyIff(entry.fields, Value(entry.fields, "id").s, at, parse);
      }
    }
  }

  ghost predicate ProvidersOk(items: seq<Json>, parse: Url.AddressParser) {
    (forall i :: 0 <= i < |items| ==> ProviderOk(items[i], parse)) && Unique(items, "id")
  }

  lemma ProviderNameIff(items: seq<Json>, i: nat, parse: Url.AddressParser)
    requires i < |items|
    ensures ProviderNames(items, parse)[i].Some? <==> ProviderOk(items[i], parse)
    ensures ProviderOk(items[i], parse) ==> ProviderNames(items, parse)[i] == Some(TextAt(FieldsOf(items[i]), "id"))
  {
    ProviderIff(items[i], [Key("providers"), Index(i)], parse);
    var r := ProviderAt(items, i, [], parse);
    if r.Ok? {
      assert ProviderMatches(items[i], r.value, parse);
    }
  }

  /** The provider section is accepted exactly when every entry follows the schema and no
      two share an id. */
  lemma ProvidersIff(items: seq<Json>, parse: Url.AddressParser)
    ensures ProvidersFrom(items, [], parse).Ok? <==> ProvidersOk(items, parse)
  {
    ProvidersAcceptedIff(items, [], parse);
    forall i | 0 <= i < |items|
      ensures ProviderNames(items, parse)[i].Some? <==> ProviderOk(items[i], parse)
      ensures ProviderOk(items[i], parse) ==> ProviderNames(items, parse)[i] == Some(TextAt(FieldsOf(items[i]), "id"))
    {
      ProviderNameIff(items, i, parse);
    }
    NamesDistinct(items, "id", ProviderNames(items, parse));
  }

  lemma NamesDistinct(items: seq<Json>, key: string, names: seq<Option<string>>)
    requires |names| == |items|
    requires forall i :: 0 <= i < |items| && names[i].Some? ==> names[i] == Some(TextAt(FieldsOf(items[i]), key))
    ensures Agreeable(names, |items|) <==> (forall i :: 0 <= i < |items| ==> names[i].Some?) && Unique(items, key)
  {
  }

  // --- routes ----------------------------------------------------------------------------------

  predicate FamilyText(v: Json) {
    Among(v, {"responses", "chat_completions"})
  }

  predicate RetryableText(v: Json) {
    Among(v, {"connect_failed", "dns_failed", "connect_timeout", "http_502", "http_503", "http_504"})
  }

  ghost predicate TargetOk(entry: Json, providers: seq<Json>) {
    && Shaped(entry, {"provider_id", "upstream_model", "priority", "weight"})
    && IdText(Value(entry.fields, "provider_id"))
    && (exists k :: 0 <= k < |providers| && Names(entry, providers[k]))
    && TextIn(Value(entry.fields, "upstream_model"), 1, 256)
    && IntIn(Value(entry.fields, "priority"), -2_147_483_648, 2_147_483_647)
    && IntIn(Value(entry.fields, "weight"), 1, 1_000_000)
  }

  ghost predicate FallbackOk(v: Json, targets: nat) {
    && Shaped(v, {"enabled", "max_attempts", "retryable"})
    && Value(v.fields, "enabled").Bool?
    && IntIn(Value(v.fields, "max_attempts"), 1, 16) && Value(v.fields, "max_attempts").n <= targets
    && ListIn(Value(v.fields, "retryable"), 0, 32) && DistinctTexts(Items(v.fields, "retryable"), RetryableText)
  }

  /** Some target's provider advertises responses. */
  ghost predicate ServesResponses(targets: seq<Json>, providers: seq<Json>) {
    exists t, k :: 0 <= t < |targets| && 0 <= k < |providers| && Names(targets[t], providers[k])
                   && Advertises(FieldsOf(providers[k]), "responses")
  }

  ghost predicate RouteOk(entry: Json, providers: seq<Json>) {
    && Shaped(entry, {"id", "model_alias", "enabled", "endpoint_families", "policy", "fallback", "targets"})
    && IdText(Value(entry.fields, "id")) && AliasText(Value(entry.fields, "model_alias"))
    && RouteBodyOk(entry.fields, providers)
  }

  ghost predicate RouteBodyOk(route: Node, providers: seq<Json>) {
    && Value(route, "enabled").Bool?
    && FamiliesOk(route)
    && Among(Value(route, "policy"), {"priority", "round_robin", "least_latency"})
    && TargetsOk(route, providers)
    && FallbackOk(Value(route, "fallback"), |Items(route, "targets")|)
    && (Text("responses") in Items(route, "endpoint_families") ==> ServesResponses(Items(route, "targets"), providers))
  }

  ghost predicate FamiliesOk(route: Node) {
    ListIn(Value(route, "endpoint_families"), 1, 2) && DistinctTexts(Items(route, "endpoint_families"), FamilyText)
  }

  ghost predicate TargetsOk(route: Node, providers: seq<Json>) {
    ListIn(Value(route, "targets"), 1, 64) && forall t :: 0 <= t < |Items(route, "targets")| ==> TargetOk(Items(route, "targets")[t], providers)
  }

  /** The provider table was made from these entries. */
  ghost predicate MadeFrom(table: seq<Provider>, providers: seq<Json>, parse: Url.AddressParser) {
    |table| == |providers| && ProviderTable(providers, table, parse)
  }

  lemma IdsOfTable(table: seq<Provider>, providers: seq<Json>, parse: Url.AddressParser, k: nat)
    requires MadeFrom(table, providers, parse) && k < |table|
    ensures TextAt(FieldsOf(providers[k]), "id") == ProviderIds(table)[k] == table[k].id
  {
    assert ProviderMatches(providers[k], table[k], parse);
  }

  lemma NamedIff(entry: Json, table: seq<Provider>, providers: seq<Json>, parse: Url.AddressParser)
    requires MadeFrom(table, providers, parse)
    ensures TextAt(FieldsOf(entry), "provider_id") in ProviderIds(table) <==>
            exists k :: 0 <= k < |providers| && Names(entry, providers[k])
  {
    forall k | 0 <= k < |table|
      ensures ProviderIds(table)[k] == TextAt(FieldsOf(entry), "provider_id") <==> Names(entry, providers[k])
    {
      IdsOfTable(table, providers, parse, k);
    }
  }

  lemma KnownProviderIff(target: Node, at: Pointer, table: seq<Provider>, providers: seq<Json>, parse: Url.AddressParser)
    requires MadeFrom(table, providers, parse)
    ensures KnownProvider(target, ProviderIds(table), at).Ok? <==>
            IdText(Value(target, "provider_id")) && exists k :: 0 <= k < |providers| && Names(Object(target), providers[k])
  {
    TextFieldIff(target, "provider_id", at);
    if Value(target, "provider_id").Text? {
      IdIff(Value(target, "provider_id").s);
      NamedIff(Object(target), table, providers, parse);
    }
  }

  lemma TargetPlainIff(target: Node, at: Pointer)
    ensures CheckTargetPlain(target, at).Ok? <==>
            && TextIn(Value(target, "upstream_model"), 1, 256)
            && IntIn(Value(target, "priority"), -2_147_483_648, 2_147_483_647)
            && IntIn(Value(target, "weight"), 1, 1_000_000)
  {
    TextFieldIff(target, "upstream_model", at);
    FieldsIff(target, "priority", -2_147_483_648, 2_147_483_647, at);
    FieldsIff(target, "weight", 1, 1_000_000, at);
  }

  lemma TargetIff(entry: Json, at: Pointer, table: seq<Provider>, providers: seq<Json>, parse: Url.AddressParser)
    requires MadeFrom(table, providers, parse)
    ensures CheckTarget(entry, at, table).Ok? <==> TargetOk(entry, providers)
  {
    if entry.Object? {
      assert entry == Object(entry.fields);
      KeysAllowed(entry.fields, {"provider_id", "upstream_model", "priority", "weight"}, at);
      KnownProviderIff(entry.fields, at, table, providers, parse);
      TargetPlainIff(entry.fields, at);
    }
  }

  /** Which targets pass on their own. */
  function Passes(items: seq<Json>, at: Pointer, table: seq<Provider>): (r: seq<bool>)
    ensures |r| == |items| && forall i :: 0 <= i < |items| ==> r[i] == CheckTarget(items[i], at + [Index(i)], table).Ok?
  {
    seq(|items|, i requires 0 <= i < |items| => CheckTarget(items[i], at + [Index(i)], table).Ok?)
  }

  lemma TargetsStep(items: seq<Json>, at: Pointer, table: seq<Provider>, done: seq<Target>) returns (next: seq<Target>)
    requires |done| < |items|
    ensures |next| == |done| + 1
    ensures TargetsFrom(items, at, table, done).Ok? <==>
            Passes(items, at, table)[|done|] && TargetsFrom(items, at, table, next).Ok?
  {
    var t := CheckTarget(items[|done|], at + [Index(|done|)], table);
    next := done + [if t.Ok? then t.value else Target("", 0)];
  }

  predicate AllFrom(passes: seq<bool>, i: nat)
    decreases |passes| - i
  {
    i >= |passes| || (passes[i] && AllFrom(passes, i + 1))
  }

  lemma {:induction false} AllFromMeans(passes: seq<bool>, i: nat)
    ensures AllFrom(passes, i) <==> forall k :: i <= k < |passes| ==> passes[k]
    decreases |passes| - i
  {
    if i < |passes| {
      AllFromMeans(passes, i + 1);
    }
  }

  lemma {:induction false} TargetsFromIff(items: seq<Json>, at: Pointer, table: seq<Provider>, done: seq<Target>)
    requires |done| <= |items|
    ensures TargetsFrom(items, at, table, done).Ok? <==> AllFrom(Passes(items, at, table), |done|)
    decreases |items| - |done|
  {
    if |done| < |items| {
      var next := TargetsStep(items, at, table, done);
      TargetsFromIff(items, at, table, next);
    }
  }

  lemma TargetsIff(route: Node, at: Pointer, table: seq<Provider>, providers: seq<Json>, parse: Url.AddressParser)
    requires MadeFrom(table, providers, parse)
    ensures CheckTargets(route, at, table).Ok? <==> TargetsOk(route, providers)
    ensures CheckTargets(route, at, table).Ok? ==> |CheckTargets(route, at, table).value| == |Items(route, "targets")|
  {
    FieldsIff(route, "targets", 1, 64, at);
    var items, here := Items(route, "targets"), at + [Key("targets")];
    var passes := Passes(items, here, table);
    TargetsFromIff(items, here, table, []);
    AllFromMeans(passes, 0);
    forall i | 0 <= i < |items|
      ensures passes[i] <==> TargetOk(items[i], providers)
    {
      TargetIff(items[i], here + [Index(i)], table, providers, parse);
    }
  }

  lemma FamiliesIff(route: Node, at: Pointer)
    ensures CheckFamilies(route, at).Ok? <==> FamiliesOk(route)
  {
    FieldsIff(route, "endpoint_families", 1, 2, at);
    assert forall s :: IsFamily(s) <==> FamilyText(Text(s));
    DistinctIff(Items(route, "endpoint_families"), IsFamily, FamilyText, NOT_A_CHOICE, at + [Key("endpoint_families")]);
  }

  lemma FallbackIff(v: Json, at: Pointer, targets: nat)
    ensures CheckFallback(v, at, targets).Ok? <==> FallbackOk(v, targets)
  {
    if v.Object? {
      KeysAllowed(v.fields, {"enabled", "max_attempts", "retryable"}, at);
      FlagIff(v.fields, "enabled", at);
      FieldsIff(v.fields, "max_attempts", 1, 16, at);
      FieldsIff(v.fields, "retryable", 0, 32, at);
      assert forall s :: IsRetryable(s) <==> RetryableText(Text(s));
      DistinctIff(Items(v.fields, "retryable"), IsRetryable, RetryableText, NOT_A_CHOICE, at + [Key("retryable")]);
    }
  }

  lemma ServesIff(items: seq<Json>, targets: seq<Target>, table: seq<Provider>, providers: seq<Json>, parse: Url.AddressParser)
    requires MadeFrom(table, providers, parse) && |targets| == |items|
    requires forall i :: 0 <= i < |items| ==> TargetMatches(items[i], targets[i], table)
    ensures SomeAdvertises(targets, table) <==> ServesResponses(items, providers)
  {
    forall t, k | 0 <= t < |items| && 0 <= k < |providers|
      ensures Names(items[t], providers[k]) <==> targets[t].resolved == k
      ensures "responses" in table[k].capabilities <==> Advertises(FieldsOf(providers[k]), "responses")
    {
      assert TargetMatches(items[t], targets[t], table);
      IdsOfTable(table, providers, parse, k);
      IdsOfTable(table, providers, parse, targets[t].resolved);
      AdvertisedInTable(table, providers, parse, k);
    }
    if SomeAdvertises(targets, table) {
      var t :| 0 <= t < |targets| && targets[t].resolved < |table| && "responses" in table[targets[t].resolved].capabilities;
      assert Names(items[t], providers[targets[t].resolved]);
    }
  }

  lemma AdvertisedInTable(table: seq<Provider>, providers: seq<Json>, parse: Url.AddressParser, k: nat)
    requires MadeFrom(table, providers, parse) && k < |table|
    ensures "responses" in table[k].capabilities <==> Advertises(FieldsOf(providers[k]), "responses")
  {
    assert ProviderMatches(providers[k], table[k], parse);
    assert SORTED_CAPABILITIES[2] == "responses";
  }

  lemma FallbackFieldIff(route: Node, at: Pointer, targets: nat)
    ensures CheckFallbackField(route, at, targets).Ok? <==> FallbackOk(Value(route, "fallback"), targets)
  {
    FallbackIff(Value(route, "fallback"), at + [Key("fallback")], targets);
  }

  lemma RouteBodyIff(route: Node, id: string, alias: string, at: Pointer, table: seq<Provider>, providers: seq<Json>, parse: Url.AddressParser)
    requires MadeFrom(table, providers, parse)
    ensures CheckRouteBody(route, id, alias, at, table).Ok? <==> RouteBodyOk(route, providers)
  {
    FlagIff(route, "enabled", at);
    FamiliesIff(route, at);
    ChoiceIff(route, "policy", {"priority", "round_robin", "least_latency"}, at);
    TargetsIff(route, at, table, providers, parse);
    FallbackFieldIff(route, at, |Items(route, "targets")|);
    if TargetsOk(route, providers) {
      ServesIff(Items(route, "targets"), CheckTargets(route, at, table).value, table, providers, parse);
    }
  }

  lemma AliasFieldIff(node: Node, at: Pointer)
    ensures NewAlias(node, [], at).Ok? <==> AliasText(Value(node, "model_alias"))
  {
    TextFieldIff(node, "model_alias", at);
    if Value(node, "model_alias").Text? {
      AliasIff(Value(node, "model_alias").s);
    }
  }

  /** A route is acceptable on its own exactly when it follows the schema; in particular a
      provider that advertises responses is asked for only by a responses route. */
  lemma RouteIff(entry: Json, at: Pointer, table: seq<Provider>, providers: seq<Json>, parse: Url.AddressParser)
    requires MadeFrom(table, providers, parse)
    ensures CheckRoute(entry, at, [], [], table).Ok? <==> RouteOk(entry, providers)
  {
    if entry.Object? {
      KeysAllowed(entry.fields, ROUTE_KEYS, at);
      IdFieldIff(entry.fields, at);
      AliasFieldIff(entry.fields, at);
      if Value(entry.fields, "id").Text? && Value(entry.fields, "model_alias").Text? {
        RouteBodyIff(entry.fields, Value(entry.fields, "id").s, Value(entry.fields, "model_alias").s, at, table, providers, parse);
      }
    }
  }

  ghost predicate RoutesOk(items: seq<Json>, providers: seq<Json>) {
    && (forall i :: 0 <= i < |items| ==> RouteOk(items[i], providers))
    && Unique(items, "id") && Unique(items, "model_alias")
  }

  /** The route section is accepted exactly when every entry follows the schema and no two
      share an id or an alias. */
  lemma RoutesIff(items: seq<Json>, table: seq<Provider>, providers: seq<Json>, parse: Url.AddressParser)
    requires MadeFrom(table, providers, parse)
    ensures RoutesFrom(items, [], table).Ok? <==> RoutesOk(items, providers)
  {
    var verdicts := Alone(items, table);
    RoutesAcceptedIff(items, [], table);
    forall i | 0 <= i < |items|
      ensures verdicts[i].Ok? <==> RouteOk(items[i], providers)
      ensures verdicts[i].Ok? ==> NamesKept(items[i], verdicts[i].value)
    {
      AloneIff(items, i, table, providers, parse);
    }
    CompatibleIff(items, verdicts);
  }

  ghost predicate NamesKept(entry: Json, r: Route) {
    r.id == TextAt(FieldsOf(entry), "id") && r.alias == TextAt(FieldsOf(entry), "model_alias")
  }

  lemma AloneIff(items: seq<Json>, i: nat, table: seq<Provider>, providers: seq<Json>, parse: Url.AddressParser)
    requires MadeFrom(table, providers, parse) && i < |items|
    ensures Alone(items, table)[i].Ok? <==> RouteOk(items[i], providers)
    ensures Alone(items, table)[i].Ok? ==> NamesKept(items[i], Alone(items, table)[i].value)
  {
    RouteIff(items[i], [Key("routes"), Index(i)], table, providers, parse);
    RouteAccepted(items[i], [Key("routes"), Index(i)], [], [], table);
  }

  lemma CompatibleIff(items: seq<Json>, verdicts: seq<Result<Route>>)
    requires |verdicts| == |items|
    requires forall i :: 0 <= i < |items| && verdicts[i].Ok? ==> NamesKept(items[i], verdicts[i].value)
    ensures Compatible(verdicts, |items|) <==>
            (forall i :: 0 <= i < |items| ==> verdicts[i].Ok?) && Unique(items, "id") && Unique(items, "model_alias")
  {
  }

  // --- MCP servers ---------------------------------------------------------------------------------

  predicate RevisionText(v: Json) {
    v == Text("2025-11-25")
  }

  ghost predicate ProtocolOk(v: Json) {
    && Shaped(v, {"preferred", "legacy"})
    && Value(v.fields, "preferred") == Text("2026-07-28")
    && ListIn(Value(v.fields, "legacy"), 0, 8) && DistinctTexts(Items(v.fields, "legacy"), RevisionText)
  }

  predicate RestartOk(v: Json) {
    && Shaped(v, {"mode", "max_restarts", "window_ms", "backoff_ms", "max_backoff_ms"})
    && Among(Value(v.fields, "mode"), {"never", "on_failure", "always"})
    && IntIn(Value(v.fields, "max_restarts"), 0, 100)
    && IntIn(Value(v.fields, "window_ms"), 1000, 86_400_000)
    && IntIn(Value(v.fields, "backoff_ms"), 0, 3_600_000)
    && IntIn(Value(v.fields, "max_backoff_ms"), 0, 3_600_000)
    && Value(v.fields, "backoff_ms").n <= Value(v.fields, "max_backoff_ms").n
  }

  predicate CleanText(v: Json, low: int, high: int) {
    TextIn(v, low, high) && '\0' !in v.s
  }

  predicate ProcessOk(s: Node) {
    && CleanText(Value(s, "command"), 1, 4096) && Value(s, "command").s[0] == '/'
    && ListIn(Value(s, "args"), 0, 128)
    && (forall i :: 0 <= i < |Items(s, "args")| ==> CleanText(Items(s, "args")[i], 0, 4096))
    && CleanText(Value(s, "cwd"), 1, 4096)
  }

  /** Names to inherit, names to set from references, and none that is both. */
  ghost predicate EnvironmentOk(s: Node) {
    && ListIn(Value(s, "env_allow"), 0, 128) && DistinctTexts(Items(s, "env_allow"), EnvText)
    && Value(s, "env").Object? && |Section(s, "env")| <= 128
    && forall i :: 0 <= i < |Section(s, "env")| ==> EntryOk(Section(s, "env")[i], Items(s, "env_allow"))
  }

  predicate EntryOk(f: Field, allowed: seq<Json>) {
    EnvText(Text(f.key)) && Text(f.key) !in allowed && ReferenceOk(f.value)
  }

  ghost predicate StdioOk(s: Node) {
    && OnlyKeys(s, {"id", "display_name", "transport", "enabled", "required", "command", "args", "cwd", "env_allow", "env", "protocol",
                    "restart", "startup_timeout_ms", "shutdown_grace_ms"})
    && StdioBodyOk(s)
  }

  ghost predicate StdioBodyOk(s: Node) {
    && ProcessOk(s) && EnvironmentOk(s) && RestartOk(Value(s, "restart"))
    && IntIn(Value(s, "startup_timeout_ms"), 100, 600_000)
    && IntIn(Value(s, "shutdown_grace_ms"), 0, 600_000)
  }

  ghost predicate HttpOk(s: Node, parse: Url.AddressParser) {
    && OnlyKeys(s, {"id", "display_name", "transport", "enabled", "required", "url", "auth", "protocol", "timeouts",
                    "allow_insecure_private_http"})
    && HttpBodyOk(s, parse)
  }

  ghost predicate HttpBodyOk(s: Node, parse: Url.AddressParser) {
    UrlOk(s, "url", parse) && AuthOk(Value(s, "auth")) && TimeoutsOk(Value(s, "timeouts"))
  }

  ghost predicate ServerOk(entry: Json, parse: Url.AddressParser) {
    && entry.Object?
    && IdText(Value(entry.fields, "id")) && ServerPlainOk(entry.fields)
    && ( || (Value(entry.fields, "transport") == Text("stdio") && StdioOk(entry.fields))
         || (Value(entry.fields, "transport") == Text("streamable_http") && HttpOk(entry.fields, parse)))
  }

  ghost predicate ServerPlainOk(s: Node) {
    && TextIn(Value(s, "display_name"), 1, 128)
    && Value(s, "enabled").Bool? && Value(s, "required").Bool?
    && ProtocolOk(Value(s, "protocol"))
  }

  lemma ProtocolIff(v: Json, at: Pointer)
    ensures CheckProtocol(v, at).Ok? <==> ProtocolOk(v)
  {
    if v.Object? {
      KeysAllowed(v.fields, {"preferred", "legacy"}, at);
      ChoiceIff(v.fields, "preferred", {"2026-07-28"}, at);
      FieldsIff(v.fields, "legacy", 0, 8, at);
      assert forall s :: IsLegacyRevision(s) <==> RevisionText(Text(s));
      DistinctIff(Items(v.fields, "legacy"), IsLegacyRevision, RevisionText, NOT_A_CHOICE, at + [Key("legacy")]);
    }
  }

  lemma RestartIff(v: Json, at: Pointer)
    ensures CheckRestart(v, at).Ok? <==> RestartOk(v)
  {
    if v.Object? {
      KeysAllowed(v.fields, {"mode", "max_restarts", "window_ms", "backoff_ms", "max_backoff_ms"}, at);
      ChoiceIff(v.fields, "mode", {"never", "on_failure", "always"}, at);
    }
  }

  lemma {:induction false} ArgsIff(args: seq<Json>, at: Pointer, i: nat)
    requires i <= |args|
    ensures ArgsFrom(args, at, i).Ok? <==> forall k :: i <= k < |args| ==> CleanText(args[k], 0, 4096)
    decreases |args| - i
  {
    if i < |args| {
      ArgsIff(args, at, i + 1);
    }
  }

  lemma NoNulIff(node: Node, key: string, at: Pointer)
    ensures NoNul(node, key, at).Ok? <==> Value(node, key).Text? && '\0' !in Value(node, key).s
    ensures NoNul(node, key, at).Ok? ==> Value(node, key) == Text(NoNul(node, key, at).value)
  {
    TextFieldIff(node, key, at);
  }

  lemma ProcessIff(s: Node, at: Pointer)
    ensures CheckProcess(s, at).Ok? <==> ProcessOk(s)
  {
    NoNulIff(s, "command", at);
    NoNulIff(s, "cwd", at);
    FieldsIff(s, "args", 0, 128, at);
    ArgsIff(Items(s, "args"), at + [Key("args")], 0);
  }

  lemma {:induction false} EnvFromIff(env: Node, allowed: set<string>, items: seq<Json>, at: Pointer, i: nat)
    requires i <= |env| && forall s :: s in allowed <==> Text(s) in items
    ensures EnvFrom(env, allowed, at, i).Ok? <==> forall k :: i <= k < |env| ==> EntryOk(env[k], items)
    decreases |env| - i
  {
    if i < |env| {
      var here := at + [Key(env[i].key)];
      EnvFromIff(env, allowed, items, at, i + 1);
      EnvIff(env[i].key);
      ReferenceIff(env[i].value, here, here + [Key("name")]);
    }
  }

  lemma AllowedIff(s: Node, at: Pointer)
    ensures var items := Array(s, "env_allow", 0, 128, at);
            items.Ok? && DistinctFrom(items.value, IsEnv, BAD_ENV, at + [Key("env_allow")], 0, {}).Ok?
            <==> ListIn(Value(s, "env_allow"), 0, 128) && DistinctTexts(Items(s, "env_allow"), EnvText)
    ensures var items := Array(s, "env_allow", 0, 128, at);
            items.Ok? ==> items.value == Items(s, "env_allow")
    ensures var allow := DistinctFrom(Items(s, "env_allow"), IsEnv, BAD_ENV, at + [Key("env_allow")], 0, {});
            allow.Ok? ==> forall name :: name in allow.value <==> Text(name) in Items(s, "env_allow")
  {
    FieldsIff(s, "env_allow", 0, 128, at);
    forall name {
      EnvIff(name);
    }
    DistinctIff(Items(s, "env_allow"), IsEnv, EnvText, BAD_ENV, at + [Key("env_allow")]);
    DistinctMeans(Items(s, "env_allow"), IsEnv, BAD_ENV, at + [Key("env_allow")], 0, {});
  }

  lemma EnvironmentIff(s: Node, id: string, at: Pointer)
    ensures CheckEnvironment(s, id, at).Ok? <==> EnvironmentOk(s)
  {
    AllowedIff(s, at);
    var items := Array(s, "env_allow", 0, 128, at);
    if items.Ok? && Value(s, "env").Object? {
      var allow := DistinctFrom(items.value, IsEnv, BAD_ENV, at + [Key("env_allow")], 0, {});
      if allow.Ok? {
        EnvFromIff(Section(s, "env"), allow.value, Items(s, "env_allow"), at + [Key("env")], 0);
      }
    }
  }

  lemma StdioIff(s: Node, id: string, at: Pointer)
    ensures CheckStdio(s, id, at).Ok? <==> StdioBodyOk(s)
  {
    ProcessIff(s, at);
    EnvironmentIff(s, id, at);
    RestartIff(Value(s, "restart"), at + [Key("restart")]);
    FieldsIff(s, "startup_timeout_ms", 100, 600_000, at);
    FieldsIff(s, "shutdown_grace_ms", 0, 600_000, at);
  }

  lemma HttpIff(s: Node, id: string, at: Pointer, parse: Url.AddressParser)
    ensures CheckHttpServer(s, id, at, parse).Ok? <==> HttpBodyOk(s, parse)
  {
    UrlIff(s, "url", at, parse);
    AuthIff(Value(s, "auth"), at + [Key("auth")]);
    TimeoutsIff(Value(s, "timeouts"), at + [Key("timeouts")]);
  }

  lemma ServerBodyIff(s: Node, transport: string, id: string, at: Pointer, parse: Url.AddressParser)
    ensures CheckServerBody(s, transport, id, at, parse).Ok? <==>
            ServerPlainOk(s) && if transport == "stdio" then StdioBodyOk(s) else HttpBodyOk(s, parse)
  {
    TextFieldIff(s, "display_name", at);
    FlagIff(s, "enabled", at);
    FlagIff(s, "required", at);
    ProtocolIff(Value(s, "protocol"), at + [Key("protocol")]);
    StdioIff(s, id, at);
    HttpIff(s, id, at, parse);
  }

  /** A server is acceptable on its own exactly when it follows the schema of its transport. */
  lemma ServerIff(entry: Json, at: Pointer, parse: Url.AddressParser)
    ensures CheckServer(entry, at, [], parse).Ok? <==> ServerOk(entry, parse)
  {
    if entry.Object? {
      var s := entry.fields;
      ChoiceIff(s, "transport", {"stdio", "streamable_http"}, at);
      KeysAllowed(s, STDIO_KEYS, at);
      KeysAllowed(s, HTTP_KEYS, at);
      IdFieldIff(s, at);
      assert |"stdio"| == 5 && |"streamable_http"| == 15;
      if Value(s, "id").Text? && Value(s, "transport").Text? {
        ServerBodyIff(s, Value(s, "transport").s, Value(s, "id").s, at, parse);
      }
    }
  }

  ghost predicate ServersOk(items: seq<Json>, parse: Url.AddressParser) {
    (forall i :: 0 <= i < |items| ==> ServerOk(items[i], parse)) && Unique(items, "id")
  }

  lemma ServerNameIff(items: seq<Json>, i: nat, parse: Url.AddressParser)
    requires i < |items|
    ensures ServerNames(items, parse)[i].Some? <==> ServerOk(items[i], parse)
    ensures ServerOk(items[i], parse) ==> ServerNames(items, parse)[i] == Some(TextAt(FieldsOf(items[i]), "id"))
  {
    ServerIff(items[i], [Key("mcp_servers"), Index(i)], parse);
    var r := ServerAt(items, i, [], parse);
    if r.Ok? {
      assert ServerMatches(items[i], r.value, parse);
    }
  }

  /** The server section is accepted exactly when every entry follows the schema and no two
      share an id. */
  lemma ServersIff(items: seq<Json>, parse: Url.AddressParser)
    ensures ServersFrom(items, [], parse).Ok? <==> ServersOk(items, parse)
  {
    ServersAcceptedIff(items, [], parse);
    forall i | 0 <= i < |items|
      ensures ServerNames(items, parse)[i].Some? <==> ServerOk(items[i], parse)
      ensures ServerOk(items[i], parse) ==> ServerNames(items, parse)[i] == Some(TextAt(FieldsOf(items[i]), "id"))
    {
      ServerNameIff(items, i, parse);
    }
    NamesDistinct(items, "id", ServerNames(items, parse));
  }

  // --- the document ------------------------------------------------------------------------------------

  ghost predicate RootOk(document: Json) {
    && Shaped(document, {"schema_version", "listener", "control", "storage", "logging", "limits", "providers", "routes", "mcp_servers"})
    && Sweep.Clean(document)
    && Value(document.fields, "schema_version") in {Number(1), Fraction(1.0), Bool(true)}
  }

  ghost predicate SettingsOk(root: Node) {
    && ListenerOk(Value(root, "listener")) && ControlOk(Value(root, "control")) && StorageOk(Value(root, "storage"))
    && LoggingOk(Value(root, "logging")) && LimitsOk(Value(root, "limits"))
  }

  ghost predicate TablesOk(root: Node, parse: Url.AddressParser) {
    && ListIn(Value(root, "providers"), 0, 256) && ListIn(Value(root, "routes"), 0, 256) && ListIn(Value(root, "mcp_servers"), 0, 256)
    && ProvidersOk(Items(root, "providers"), parse)
    && RoutesOk(Items(root, "routes"), Items(root, "providers"))
    && ServersOk(Items(root, "mcp_servers"), parse)
  }

  ghost predicate DocumentOk(document: Json, parse: Url.AddressParser) {
    RootOk(document) && SettingsOk(document.fields) && TablesOk(document.fields, parse)
  }

  lemma SettingsIff(root: Node)
    ensures CheckSettings(root).Ok? <==> SettingsOk(root)
  {
    ListenerIff(root);
    ControlIff(root);
    StorageIff(root);
    LoggingIff(root);
    LimitsIff(root);
  }

  /** The three sections, taken apart. */
  lemma TablesArePassed(root: Node, parse: Url.AddressParser)
    ensures CheckTables(root, parse).Ok? <==>
            && ListIn(Value(root, "providers"), 0, 256) && ListIn(Value(root, "routes"), 0, 256) && ListIn(Value(root, "mcp_servers"), 0, 256)
            && var table := ProvidersFrom(Items(root, "providers"), [], parse);
               && table.Ok? && RoutesFrom(Items(root, "routes"), [], table.value).Ok?
               && ServersFrom(Items(root, "mcp_servers"), [], parse).Ok?
  {
    FieldsIff(root, "providers", 0, 256, []);
    FieldsIff(root, "routes", 0, 256, []);
    FieldsIff(root, "mcp_servers", 0, 256, []);
  }

  lemma RoutedIff(routes: seq<Json>, providers: seq<Json>, parse: Url.AddressParser)
    ensures var table := ProvidersFrom(providers, [], parse);
            table.Ok? && RoutesFrom(routes, [], table.value).Ok? <==> ProvidersOk(providers, parse) && RoutesOk(routes, providers)
  {
    ProvidersIff(providers, parse);
    var table := ProvidersFrom(providers, [], parse);
    if table.Ok? {
      ProvidersAccepted(providers, [], parse);
      RoutesIff(routes, table.value, providers, parse);
    }
  }

  lemma TablesIff(root: Node, parse: Url.AddressParser)
    ensures CheckTables(root, parse).Ok? <==> TablesOk(root, parse)
  {
    TablesArePassed(root, parse);
    RoutedIff(Items(root, "routes"), Items(root, "providers"), parse);
    ServersIff(Items(root, "mcp_servers"), parse);
  }

  lemma RootIff(document: Json)
    ensures CheckRoot(document).Ok? <==> RootOk(document)
  {
    RootAcceptedIff(document);
  }

  lemma ValidatedParts(document: Json, parse: Url.AddressParser)
    ensures Validated(document, parse).Ok? <==>
            CheckRoot(document).Ok? && CheckSettings(CheckRoot(document).value).Ok? && CheckTables(CheckRoot(document).value, parse).Ok?
  {
  }

  /** `validate` accepts a document if and only if it follows the schema. */
  lemma ValidatedIff(document: Json, parse: Url.AddressParser)
    ensures Validated(document, parse).Ok? <==> DocumentOk(document, parse)
  {
    ValidatedParts(document, parse);
    RootIff(document);
    if CheckRoot(document).Ok? {
      var root := CheckRoot(document).value;
      SettingsIff(root);
      TablesIff(root, parse);
    }
  }
}
