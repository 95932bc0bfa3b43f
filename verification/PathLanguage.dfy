/** The paths `_check_path` (tests/config_corpus.py) accepts, in the words of its
    documentation: which characters, which names, and what climbing is. */
module PathLanguage {
  import opened PathGrammar

  // --- climbing ----------------------------------------------------------------------------

  /** `..` stands in `s` between slashes or the ends. */
  ghost predicate Climbing(s: string) {
    exists a, b :: ClimbsAt(s, a, b)
  }

  ghost predicate ClimbsAt(s: string, a: string, b: string) {
    s == a + ".." + b && (a == "" || a[|a| - 1] == '/') && (b == "" || b[0] == '/')
  }

  lemma ClimbsShape(s: string, a: string, b: string)
    requires ClimbsAt(s, a, b)
    ensures |s| == |a| + 2 + |b| && s[|a|] == '.' && s[|a| + 1] == '.'
    ensures a != "" ==> s[|a| - 1] == '/'
    ensures b != "" ==> s[|a| + 2] == '/'
  {
  }

  lemma FirstComponentClimbs(part: string, rest: string, a: string, b: string)
    requires '/' !in part && ClimbsAt(part + "/" + rest, a, b) && |a| <= |part|
    ensures part == ".."
  {
    var t := part + "/" + rest;
    ClimbsShape(t, a, b);
    assert a == "";
    assert t[0] == '.' && t[1] == '.' && t[|part|] == '/';
    assert part == t[..|part|];
  }

  lemma LaterComponentClimbs(part: string, rest: string, a: string, b: string)
    requires ClimbsAt(part + "/" + rest, a, b) && |a| > |part|
    ensures Climbing(rest)
  {
    var t, n := part + "/" + rest, |part| + 1;
    var later := a[n..];
    assert t[n..] == rest;
    assert (a + ".." + b)[n..] == later + ".." + b;
    assert ClimbsAt(rest, later, b);
  }

  lemma ClimbsPastSlash(part: string, rest: string)
    requires '/' !in part
    ensures Climbing(part + "/" + rest) <==> part == ".." || Climbing(rest)
  {
    var t := part + "/" + rest;
    if part == ".." {
      assert t == "" + ".." + ("/" + rest);
      assert ClimbsAt(t, "", "/" + rest);
    }
    if Climbing(rest) {
      var a, b :| ClimbsAt(rest, a, b);
      assert t == (part + "/" + a) + ".." + b;
      assert ClimbsAt(t, part + "/" + a, b);
    }
    if Climbing(t) {
      var a, b :| ClimbsAt(t, a, b);
      if |a| <= |part| {
        FirstComponentClimbs(part, rest, a, b);
      } else {
        LaterComponentClimbs(part, rest, a, b);
      }
    }
  }

  lemma NameClimbs(part: string)
    requires '/' !in part
    ensures Climbing(part) <==> part == ".."
  {
    if Climbing(part) {
      var a, b :| ClimbsAt(part, a, b);
      ClimbsShape(part, a, b);
    }
    if part == ".." {
      assert part == "" + ".." + "";
      assert ClimbsAt(part, "", "");
    }
  }

  lemma {:induction false} ClimbsFromIff(part: string, s: string)
    requires '/' !in part
    ensures ClimbsFrom(part, s) <==> Climbing(part + s)
    decreases |s|
  {
    if s == "" {
      assert part + s == part;
      NameClimbs(part);
    } else if s[0] == '/' {
      assert part + s == part + "/" + s[1..];
      assert "" + s[1..] == s[1..];
      ClimbsPastSlash(part, s[1..]);
      ClimbsFromIff("", s[1..]);
    } else {
      assert (part + [s[0]]) + s[1..] == part + s;
      ClimbsFromIff(part + [s[0]], s[1..]);
    }
  }

  /** Splitting at slashes finds `..` exactly where it stands between them. */
  lemma ParentIff(s: string)
    ensures HasParent(s) <==> Climbing(s)
  {
    HasParentIsClimbs(s);
    ClimbsFromIff("", s);
    assert "" + s == s;
  }

  // --- each verdict ---------------------------------------------------------------------------

  /** Every verdict, and so every rejection, in terms of the grammar. */
  lemma VerdictIff(value: string, verdict: Verdict)
    ensures Check(value) == verdict <==>
            match verdict
            case ForbiddenExpansion => forall ts :: !Derives(value, ts)
            case NotAbsolute => exists ts :: Derives(value, ts) && First(Expand(ts, Placeholders)) != '/'
            case Climbs => exists ts :: Derives(value, ts) && First(Expand(ts, Placeholders)) == '/' && Climbing(Expand(ts, Placeholders))
            case Accepted => exists ts :: Derives(value, ts) && First(Expand(ts, Placeholders)) == '/' && !Climbing(Expand(ts, Placeholders))
  {
    ScanIsSound(value);
    forall ts | Derives(value, ts)
      ensures Check(value) == Judge(Expand(ts, Placeholders))
      ensures HasParent(Expand(ts, Placeholders)) <==> Climbing(Expand(ts, Placeholders))
    {
      ScanAcceptsGrammar(ts);
      OutcomeNothing(ts);
      ParentIff(Expand(ts, Placeholders));
    }
    if Scan(value).Tokens? {
      assert Derives(value, Scan(value).tokens);
    }
  }

  /** The first character, if there is one. */
  function First(s: string): char {
    if s == "" then '\0' else s[0]
  }

  // --- characters and names -------------------------------------------------------------------

  lemma SlashThen(c: char)
    ensures Check("/" + [c]) == Accepted <==> IsLiteral(c)
  {
    var s := "/" + [c];
    assert s[1..] == [c] && [c][1..] == "";
    assert Scan("") == Tokens([]);
    if IsLiteral(c) {
      assert Scan([c]) == Tokens([Literal(c)]);
      var ts := [Literal('/'), Literal(c)];
      assert Scan(s) == Tokens(ts) by { assert [Literal('/')] + [Literal(c)] == ts; }
      OutcomeNothing(ts);
      ExpandCons(Literal('/'), [Literal(c)], Placeholders);
      ExpandCons(Literal(c), [], Placeholders);
      assert [Literal(c)] + [] == [Literal(c)] && [c] + "" == [c];
      ParentIff(s);
      UndottedDoesNotClimb(s);
    } else {
      assert Scan([c]) == Forbidden;
    }
  }

  /** A character may stand for itself unless it is one of these five. */
  lemma CharacterIff(c: char)
    ensures Check("/" + [c]) == Accepted <==> c !in {'`', '\n', '\r', '\0', '$'}
  {
    SlashThen(c);
  }

  lemma ReferenceAlone(name: string)
    requires name in ALLOWED_XDG
    ensures Check("${" + name + "}") == Accepted
  {
    ReferenceThen(name, "");
    assert "${" + name + "}" + "" == "${" + name + "}";
  }

  /** No two dots are neighbours. */
  predicate Undotted(s: string) {
    forall i :: 0 <= i < |s| - 1 ==> s[i] != '.' || s[i + 1] != '.'
  }

  lemma UndottedDoesNotClimb(s: string)
    requires Undotted(s)
    ensures !Climbing(s)
  {
    if Climbing(s) {
      var a, b :| ClimbsAt(s, a, b);
      ClimbsShape(s, a, b);
    }
  }

  lemma JoinedUndotted(a: string, b: string)
    requires Undotted(b) && '.' !in a
    ensures Undotted(a + b)
  {
  }

  lemma PlaceholderThen(suffix: string)
    requires Undotted(suffix)
    ensures Judge(PLACEHOLDER + suffix) == Accepted
  {
    var e := PLACEHOLDER + suffix;
    JoinedUndotted(PLACEHOLDER, suffix);
    UndottedDoesNotClimb(e);
    ParentIff(e);
    assert e[0] == PLACEHOLDER[0] == '/';
  }

  /** The usual shape: a permitted name, then literals with no two dots together. */
  lemma ReferenceThen(name: string, suffix: string)
    requires name in ALLOWED_XDG && Undotted(suffix)
    requires forall i :: 0 <= i < |suffix| ==> IsLiteral(suffix[i])
    ensures Check("${" + name + "}" + suffix) == Accepted
  {
    var ts := [Reference(name)] + Literals(suffix);
    ExpandCons(Reference(name), Literals(suffix), Placeholders);
    LiteralsExpand(suffix, Placeholders);
    ScanAcceptsGrammar(ts);
    OutcomeNothing(ts);
    PlaceholderThen(suffix);
  }

  /** A reference stands for a directory exactly when it names one of these five. */
  lemma NameIff(name: string)
    requires '}' !in name
    ensures Check("${" + name + "}") == Accepted <==>
            name in {"HOME", "XDG_CONFIG_HOME", "XDG_STATE_HOME", "XDG_DATA_HOME", "XDG_RUNTIME_DIR"}
  {
    var s := "${" + name + "}";
    if name in ALLOWED_XDG {
      ReferenceAlone(name);
    } else {
      assert s == "${" + name + "}" + "";
      CloseBrace(name, "");
      assert s[2..2 + |name|] == name;
    }
  }
}
