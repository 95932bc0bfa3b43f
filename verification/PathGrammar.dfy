/** `_check_path` (tests/config_corpus.py): the `${NAME}` path grammar. */
module PathGrammar {
  import opened Bytes

  const ALLOWED_XDG: set<string> :=
    {"HOME", "XDG_CONFIG_HOME", "XDG_STATE_HOME", "XDG_DATA_HOME", "XDG_RUNTIME_DIR"}

  const PLACEHOLDER: string := "/expanded"

  datatype Verdict = Accepted | ForbiddenExpansion | NotAbsolute | Climbs

  // --- the grammar ------------------------------------------------------------------

  predicate IsForbidden(c: char) {
    c == '`' || c == '\n' || c == '\r' || c == '\0'
  }

  predicate IsLiteral(c: char) {
    !IsForbidden(c) && c != '$'
  }

  datatype Token = Literal(c: char) | Reference(name: string) {
    predicate Valid() {
      match this
      case Literal(c) => IsLiteral(c)
      case Reference(name) => name in ALLOWED_XDG
    }
    function Render(): string {
      match this
      case Literal(c) => [c]
      case Reference(name) => "${" + name + "}"
    }
    function Expand(env: string -> string): string {
      match this
      case Literal(c) => [c]
      case Reference(name) => env(name)
    }
  }

  predicate ValidTokens(ts: seq<Token>) {
    forall i :: 0 <= i < |ts| ==> ts[i].Valid()
  }

  function Render(ts: seq<Token>): string {
    if ts == [] then "" else ts[0].Render() + Render(ts[1..])
  }

  function Expand(ts: seq<Token>, env: string -> string): string {
    if ts == [] then "" else ts[0].Expand(env) + Expand(ts[1..], env)
  }

  function Placeholders(name: string): string { PLACEHOLDER }

  // --- path components ---------------------------------------------------------------

  /** `s.split("/")`: never empty. */
  function Split(s: string): (parts: seq<string>)
    ensures |parts| > 0
  {
    if s == "" then [""]
    else
      var rest := Split(s[1..]);
      if s[0] == '/' then [""] + rest else [[s[0]] + rest[0]] + rest[1..]
  }

  predicate Absolute(s: string) {
    s != "" && s[0] == '/'
  }

  predicate HasParent(s: string) {
    ".." in Split(s)
  }

  function Judge(expanded: string): Verdict {
    if !Absolute(expanded) then NotAbsolute
    else if HasParent(expanded) then Climbs
    else Accepted
  }

  // --- the scanner --------------------------------------------------------------------

  datatype Lexed = Tokens(tokens: seq<Token>) | Forbidden

  function Scan(value: string): Lexed
    decreases |value|
  {
    if value == "" then Tokens([])
    else if IsForbidden(value[0]) then Forbidden
    else if value[0] != '$' then Cons(Literal(value[0]), Scan(value[1..]))
    else if |value| < 2 || value[1] != '{' then Forbidden
    else
      var close := FindFrom(value, "}", 2);
      if close < 0 then Forbidden
      else
        var name := value[2..close];
        if name == "" || name !in ALLOWED_XDG then Forbidden
        else Cons(Reference(name), Scan(value[close + 1..]))
  }

  function Cons(t: Token, rest: Lexed): Lexed {
    if rest.Forbidden? then Forbidden else Tokens([t] + rest.tokens)
  }

  /** The verdict, given the expansion written so far and what is left to scan. */
  function Outcome(out: string, left: Lexed): Verdict {
    match left
    case Forbidden => ForbiddenExpansion
    case Tokens(ts) => Judge(out + Expand(ts, Placeholders))
  }

  function Check(value: string): Verdict {
    Outcome("", Scan(value))
  }

  /** One turn of the loop: the token at `i` and its length, or a forbidden expansion. */
  method ReadToken(value: string, i: nat) returns (ok: bool, t: Token, n: nat)
    requires i < |value|
    ensures !ok ==> Scan(value[i..]).Forbidden?
    ensures ok ==> 0 < n && i + n <= |value| && Scan(value[i..]) == Cons(t, Scan(value[i + n..]))
  {
    ghost var rest := value[i..];
    var ch := value[i];
    t, n := Literal(ch), 1;
    if IsForbidden(ch) {
      return false, t, n;
    }
    if ch != '$' {
      assert rest[1..] == value[i + 1..];
      return true, t, n;
    }
    if i + 1 >= |value| || value[i + 1] != '{' {
      return false, t, n;
    }
    var close := FindFrom(value, "}", i + 2);
    FindShifted(value, i, "}", 2);
    if close < 0 {
      return false, t, n;
    }
    var name := value[i + 2..close];
    assert rest[2..close - i] == name;
    assert rest[close + 1 - i..] == value[close + 1..];
    t, n := Reference(name), close + 1 - i;
    ok := name != "" && name in ALLOWED_XDG;
  }

  /** `_check_path`. */
  method CheckPath(value: string) returns (verdict: Verdict)
    ensures verdict == Check(value)
  {
    var out, i := "", 0;
    assert value[0..] == value;
    while i < |value|
      invariant 0 <= i <= |value|
      invariant Check(value) == Outcome(out, Scan(value[i..]))
      decreases |value| - i
    {
      var ok, t, n := ReadToken(value, i);
      if !ok {
        return ForbiddenExpansion;
      }
      OutcomeStep(out, t, Scan(value[i + n..]));
      out := out + t.Expand(Placeholders);
      i := i + n;
    }
    OutcomeDone(out);
    return Judge(out);
  }

  lemma OutcomeDone(out: string)
    ensures Outcome(out, Scan("")) == Judge(out)
  {
    assert out + "" == out;
  }

  lemma Assoc(a: string, b: string, c: string)
    ensures a + (b + c) == (a + b) + c
  {
  }

  lemma OutcomeNothing(ts: seq<Token>)
    ensures Outcome("", Tokens(ts)) == Judge(Expand(ts, Placeholders))
  {
    var e := Expand(ts, Placeholders);
    assert "" + e == e;
  }

  lemma OutcomeStep(out: string, t: Token, more: Lexed)
    ensures Outcome(out, Cons(t, more)) == Outcome(out + t.Expand(Placeholders), more)
  {
    if more.Tokens? {
      ExpandCons(t, more.tokens, Placeholders);
      Assoc(out, t.Expand(Placeholders), Expand(more.tokens, Placeholders));
    }
  }

  lemma ExpandCons(t: Token, ts: seq<Token>, env: string -> string)
    ensures Expand([t] + ts, env) == t.Expand(env) + Expand(ts, env)
    ensures Render([t] + ts) == t.Render() + Render(ts)
  {
    assert ([t] + ts)[1..] == ts;
  }

  lemma {:induction false} FindShifted(s: string, i: nat, pattern: string, j: nat)
    requires i + j <= |s| && pattern != ""
    ensures var f := FindFrom(s[i..], pattern, j); FindFrom(s, pattern, i + j) == if f < 0 then f else f + i
    decreases |s| - i - j
  {
    if i + j + |pattern| <= |s| {
      assert s[i..][j..j + |pattern|] == s[i + j..i + j + |pattern|];
      if !At(s, pattern, i + j) {
        FindShifted(s, i, pattern, j + 1);
      }
    }
  }

  // --- the scanner is the grammar ---------------------------------------------------------

  lemma NamesAreSimple(name: string)
    requires name in ALLOWED_XDG
    ensures name != "" && '}' !in name
  {
  }

  lemma {:induction false} FindFromIs(s: string, pattern: string, from: nat, r: nat)
    requires from <= r && At(s, pattern, r)
    requires forall k: nat :: from <= k < r ==> !At(s, pattern, k)
    ensures FindFrom(s, pattern, from) == r
  {
    var f := FindFrom(s, pattern, from);
    assert f >= 0;
    assert !(r < f);
  }

  lemma CloseBrace(name: string, rest: string)
    requires '}' !in name
    ensures FindFrom("${" + name + "}" + rest, "}", 2) == 2 + |name|
  {
    var s := "${" + name + "}" + rest;
    var close := 2 + |name|;
    assert s[close..close + 1] == "}";
    forall k: nat | 2 <= k < close
      ensures !At(s, "}", k)
    {
      assert s[k..k + 1][0] == name[k - 2];
    }
    FindFromIs(s, "}", 2, close);
  }

  lemma ScanReference(name: string, rest: string)
    requires name in ALLOWED_XDG
    ensures Scan("${" + name + "}" + rest) == Cons(Reference(name), Scan(rest))
  {
    NamesAreSimple(name);
    CloseBrace(name, rest);
    var s := "${" + name + "}" + rest;
    assert s[2..2 + |name|] == name && s[2 + |name| + 1..] == rest;
  }

  lemma {:induction false} ScanAcceptsGrammar(ts: seq<Token>)
    requires ValidTokens(ts)
    ensures Scan(Render(ts)) == Tokens(ts)
  {
    if ts != [] {
      ScanAcceptsGrammar(ts[1..]);
      var rest := Render(ts[1..]);
      match ts[0]
      case Literal(c) =>
        assert ([c] + rest)[1..] == rest;
        assert Scan([c] + rest) == Cons(ts[0], Scan(rest));
      case Reference(name) =>
        ScanReference(name, rest);
    }
  }

  lemma ScanUnfold(value: string) returns (t: Token, n: nat)
    requires Scan(value).Tokens? && value != ""
    ensures 0 < n <= |value| && t.Valid() && value == t.Render() + value[n..]
    ensures Scan(value) == Cons(t, Scan(value[n..]))
  {
    if value[0] != '$' {
      t, n := Literal(value[0]), 1;
    } else {
      var close := FindFrom(value, "}", 2);
      t, n := Reference(value[2..close]), close + 1;
      assert value[close..close + 1] == "}";
    }
  }

  lemma {:induction false} ScanIsSound(value: string)
    ensures Scan(value).Tokens? ==> ValidTokens(Scan(value).tokens) && Render(Scan(value).tokens) == value
    decreases |value|
  {
    if Scan(value).Tokens? && value != "" {
      var t, n := ScanUnfold(value);
      ScanIsSound(value[n..]);
      ExpandCons(t, Scan(value[n..]).tokens, Placeholders);
    }
  }

  ghost predicate Derives(value: string, ts: seq<Token>) {
    ValidTokens(ts) && Render(ts) == value
  }

  /** A path is accepted exactly when it decomposes into permitted literals and
      references whose placeholder expansion is absolute and never climbs; the
      decomposition is unique. */
  lemma AcceptanceIsTheGrammar(value: string)
    ensures Check(value) == Accepted <==>
            exists ts :: Derives(value, ts) && Judge(Expand(ts, Placeholders)) == Accepted
    ensures forall a, b :: Derives(value, a) && Derives(value, b) ==> a == b
  {
    ScanIsSound(value);
    if Scan(value).Tokens? {
      assert Derives(value, Scan(value).tokens);
      OutcomeNothing(Scan(value).tokens);
    }
    forall ts | Derives(value, ts)
      ensures Scan(value) == Tokens(ts)
    {
      ScanAcceptsGrammar(ts);
    }
  }

  // --- what acceptance says about the path the daemon will really open --------------------

  /** `..` occurs as a component of `s`, when `part` has already been read of the first. */
  predicate ClimbsFrom(part: string, s: string)
    decreases |s|
  {
    if s == "" then part == ".."
    else if s[0] == '/' then part == ".." || ClimbsFrom("", s[1..])
    else ClimbsFrom(part + [s[0]], s[1..])
  }

  /** The same, but counting only components that a `/` has ended. */
  predicate Closed(part: string, s: string)
    decreases |s|
  {
    if s == "" then false
    else if s[0] == '/' then part == ".." || Closed("", s[1..])
    else Closed(part + [s[0]], s[1..])
  }

  /** The component being read when `s` ends. */
  function Last(part: string, s: string): string
    decreases |s|
  {
    if s == "" then part
    else if s[0] == '/' then Last("", s[1..])
    else Last(part + [s[0]], s[1..])
  }

  lemma {:induction false} ClimbsIsSplit(part: string, s: string)
    ensures var parts := Split(s);
            && (ClimbsFrom(part, s) <==> ".." in [part + parts[0]] + parts[1..])
            && Last(part, s) == (if |parts| == 1 then part + parts[0] else parts[|parts| - 1])
    decreases |s|
  {
    var parts := Split(s);
    if s == "" {
      assert part + "" == part;
    } else {
      var rest := Split(s[1..]);
      if s[0] == '/' {
        ClimbsIsSplit("", s[1..]);
        assert parts[1..] == rest;
        assert part + "" == part && "" + rest[0] == rest[0];
        assert [rest[0]] + rest[1..] == rest;
      } else {
        ClimbsIsSplit(part + [s[0]], s[1..]);
        assert parts[1..] == rest[1..];
        assert (part + [s[0]]) + rest[0] == part + parts[0];
      }
    }
  }

  lemma HasParentIsClimbs(s: string)
    ensures HasParent(s) <==> ClimbsFrom("", s)
    ensures Split(s)[|Split(s)| - 1] == Last("", s)
  {
    ClimbsIsSplit("", s);
    var parts := Split(s);
    assert "" + parts[0] == parts[0];
    assert [parts[0]] + parts[1..] == parts;
  }

  lemma {:induction false} ClimbsConcat(part: string, v: string, w: string)
    ensures ClimbsFrom(part, v + w) <==> Closed(part, v) || ClimbsFrom(Last(part, v), w)
    decreases |v|
  {
    if v == "" {
      assert v + w == w;
    } else {
      assert (v + w)[1..] == v[1..] + w;
      ClimbsConcat(if v[0] == '/' then "" else part + [v[0]], v[1..], w);
    }
  }

  /** Components are told apart only as far as they can still become `..`. */
  predicate Alike(a: string, b: string) {
    a == b || (a !in {"", ".", ".."} && b !in {"", ".", ".."})
  }

  /** An environment value the placeholder stands for faithfully. */
  predicate SafeValue(v: string) {
    Absolute(v) && !HasParent(v) && Split(v)[|Split(v)| - 1] !in {"", "."}
  }

  lemma SafeValueBehaves(v: string, part: string)
    requires SafeValue(v)
    ensures Closed(part, v) <==> part == ".."
    ensures Last(part, v) !in {"", ".", ".."}
  {
    HasParentIsClimbs(v);
    ClimbsConcat("", v, "");
    assert v + "" == v;
  }

  lemma PlaceholderIsSafe()
    ensures SafeValue(PLACEHOLDER)
  {
    var v := PLACEHOLDER;
    HasParentIsClimbs(v);
    ClimbsConcat("", "/", "expanded");
    assert "/" + "expanded" == v;
    assert v[1..] == "expanded";
    LastOfName("", "expanded");
    ClimbsOfName("", "expanded");
    assert Last("", v) == Last("", v[1..]) == "expanded";
  }

  lemma {:induction false} LastOfName(part: string, s: string)
    requires '/' !in s
    ensures Last(part, s) == part + s
    decreases |s|
  {
    if s != "" {
      LastOfName(part + [s[0]], s[1..]);
      assert (part + [s[0]]) + s[1..] == part + s;
    } else {
      assert part + s == part;
    }
  }

  lemma {:induction false} ClimbsOfName(part: string, s: string)
    requires '/' !in s
    ensures ClimbsFrom(part, s) <==> part + s == ".."
    ensures !Closed(part, s)
    decreases |s|
  {
    if s != "" {
      ClimbsOfName(part + [s[0]], s[1..]);
      assert (part + [s[0]]) + s[1..] == part + s;
    } else {
      assert part + s == part;
    }
  }

  ghost predicate SafeEnv(env: string -> string) {
    forall name :: name in ALLOWED_XDG ==> SafeValue(env(name))
  }

  /** One token, expanded either way, leaves alike prefixes alike and closes `..` alike. */
  lemma TokenAlike(t: Token, env: string -> string, a: string, b: string)
    requires t.Valid() && SafeEnv(env) && Alike(a, b)
    ensures Alike(Last(a, t.Expand(env)), Last(b, t.Expand(Placeholders)))
    ensures Closed(a, t.Expand(env)) <==> Closed(b, t.Expand(Placeholders))
  {
    if t.Reference? {
      PlaceholderIsSafe();
      SafeValueBehaves(t.Expand(env), a);
      SafeValueBehaves(t.Expand(Placeholders), b);
    } else {
      AlikeStep(a, b, t.c);
    }
  }

  lemma {:induction false} SameClimb(ts: seq<Token>, env: string -> string, a: string, b: string)
    requires ValidTokens(ts) && SafeEnv(env) && Alike(a, b)
    ensures ClimbsFrom(a, Expand(ts, env)) <==> ClimbsFrom(b, Expand(ts, Placeholders))
  {
    if ts != [] {
      var v, p := ts[0].Expand(env), ts[0].Expand(Placeholders);
      ClimbsConcat(a, v, Expand(ts[1..], env));
      ClimbsConcat(b, p, Expand(ts[1..], Placeholders));
      TokenAlike(ts[0], env, a, b);
      SameClimb(ts[1..], env, Last(a, v), Last(b, p));
    }
  }

  lemma AlikeStep(a: string, b: string, c: char)
    requires Alike(a, b)
    ensures Alike(Last(a, [c]), Last(b, [c]))
    ensures Closed(a, [c]) <==> Closed(b, [c])
  {
    assert [c][1..] == "";
    assert (a + [c])[..|a|] == a && (b + [c])[..|b|] == b;
    assert "."[..0] == "" && ".."[..1] == ".";
  }

  /** In a safe environment the validator's verdict on the placeholder expansion is
      the verdict on the path that will actually be opened. */
  lemma VerdictIsReal(ts: seq<Token>, env: string -> string)
    requires ValidTokens(ts) && SafeEnv(env)
    ensures Judge(Expand(ts, env)) == Judge(Expand(ts, Placeholders))
  {
    SameClimb(ts, env, "", "");
    HasParentIsClimbs(Expand(ts, env));
    HasParentIsClimbs(Expand(ts, Placeholders));
    if ts != [] {
      var v := ts[0].Expand(env);
      assert v != "" && Expand(ts, env)[0] == v[0];
      assert Expand(ts, Placeholders)[0] == ts[0].Expand(Placeholders)[0];
    }
  }

  /** Every accepted path expands to an absolute path that does not climb. */
  ghost predicate AcceptanceIsSafe(env: string -> string) {
    forall ts :: ValidTokens(ts) && Judge(Expand(ts, Placeholders)) == Accepted ==> Judge(Expand(ts, env)) == Accepted
  }

  lemma DottedPlaceholder(suffix: string)
    requires forall i :: 0 <= i < |suffix| ==> suffix[i] == '.'
    ensures Judge(PLACEHOLDER + suffix) == Accepted
  {
    HasParentIsClimbs(PLACEHOLDER + suffix);
    PlaceholderIsSafe();
    SafeValueBehaves(PLACEHOLDER, "");
    ClimbsConcat("", PLACEHOLDER, suffix);
    assert PLACEHOLDER[1..] == "expanded";
    LastOfName("", "expanded");
    assert Last("", PLACEHOLDER) == Last("", PLACEHOLDER[1..]) == "expanded" by { assert "" + "expanded" == "expanded"; }
    ClimbsOfName("expanded", suffix);
    assert ("expanded" + suffix)[0] == 'e' && ".."[0] == '.';
    assert (PLACEHOLDER + suffix)[0] == PLACEHOLDER[0] == '/';
  }

  lemma SuffixedReference(name: string, suffix: string, env: string -> string) returns (ts: seq<Token>)
    requires name in ALLOWED_XDG && forall i :: 0 <= i < |suffix| ==> suffix[i] == '.'
    ensures ValidTokens(ts)
    ensures Expand(ts, env) == env(name) + suffix
    ensures Expand(ts, Placeholders) == PLACEHOLDER + suffix
  {
    ts := [Reference(name)] + Literals(suffix);
    ExpandCons(Reference(name), Literals(suffix), env);
    ExpandCons(Reference(name), Literals(suffix), Placeholders);
    LiteralsExpand(suffix, env);
    LiteralsExpand(suffix, Placeholders);
  }

  function Literals(s: string): (ts: seq<Token>)
    requires forall i :: 0 <= i < |s| ==> IsLiteral(s[i])
    ensures ValidTokens(ts)
  {
    if s == "" then [] else [Literal(s[0])] + Literals(s[1..])
  }

  lemma {:induction false} LiteralsExpand(s: string, env: string -> string)
    requires forall i :: 0 <= i < |s| ==> IsLiteral(s[i])
    ensures Expand(Literals(s), env) == s && Render(Literals(s)) == s
  {
    if s != "" {
      LiteralsExpand(s[1..], env);
      ExpandCons(Literal(s[0]), Literals(s[1..]), env);
    }
  }

  lemma ExposedBy(env: string -> string, name: string, suffix: string)
    requires name in ALLOWED_XDG && forall i :: 0 <= i < |suffix| ==> suffix[i] == '.'
    requires Judge(env(name) + suffix) != Accepted
    ensures !AcceptanceIsSafe(env)
  {
    var ts := SuffixedReference(name, suffix, env);
    DottedPlaceholder(suffix);
  }

  lemma DotsClimb(v: string, suffix: string)
    requires '/' !in suffix && Split(v)[|Split(v)| - 1] + suffix == ".."
    ensures HasParent(v + suffix)
  {
    HasParentIsClimbs(v);
    HasParentIsClimbs(v + suffix);
    ClimbsConcat("", v, suffix);
    ClimbsOfName(Last("", v), suffix);
  }

  /** A value that is not safe is exposed by one of three accepted paths: the bare
      reference, or the reference followed by one or two dots. */
  lemma UnsafeValueIsExposed(env: string -> string, name: string)
    requires name in ALLOWED_XDG && !SafeValue(env(name))
    ensures !AcceptanceIsSafe(env)
  {
    var v := env(name);
    var last := Split(v)[|Split(v)| - 1];
    if !Absolute(v) || HasParent(v) {
      assert v + "" == v;
      ExposedBy(env, name, "");
    } else {
      var suffix := if last == "" then ".." else ".";
      assert last + suffix == "..";
      DotsClimb(v, suffix);
      ExposedBy(env, name, suffix);
    }
  }

  /** Acceptance guarantees a safe path exactly in the environments whose values are
      absolute, never climb, and end in a component other than the empty one and `.`. */
  lemma SafeExactlyInSafeEnvironments(env: string -> string)
    ensures AcceptanceIsSafe(env) <==> SafeEnv(env)
  {
    if SafeEnv(env) {
      forall ts | ValidTokens(ts) && Judge(Expand(ts, Placeholders)) == Accepted
        ensures Judge(Expand(ts, env)) == Accepted
      {
        VerdictIsReal(ts, env);
      }
    } else {
      var name :| name in ALLOWED_XDG && !SafeValue(env(name));
      UnsafeValueIsExposed(env, name);
    }
  }
}
