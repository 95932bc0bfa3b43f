/** `strip_c_comments` (scripts/gate_m11.py): a four-state scanner over C text. */
module CommentStripper {

  datatype Mode = Code | Line | Block | Quoted(quote: char)

  /** One turn of the loop: what it appends, the state it enters, what it consumes. */
  datatype Move = Move(kept: string, mode: Mode, taken: nat)

  predicate Opens(text: string) {
    |text| >= 2 && text[0] == '/' && (text[1] == '/' || text[1] == '*')
  }

  function Next(mode: Mode, text: string): (m: Move)
    requires text != ""
    ensures 0 < m.taken <= |text|
  {
    var c := text[0];
    match mode
    case Line => if c == '\n' then Move("\n", Code, 1) else Move("", Line, 1)
    case Block =>
      if c == '*' && |text| >= 2 && text[1] == '/' then Move("", Code, 2)
      else Move(if c == '\n' then "\n" else "", Block, 1)
    case Quoted(q) =>
      if c == '\\' && |text| >= 2 then Move(text[..2], mode, 2)
      else Move([c], if c == q then Code else mode, 1)
    case Code =>
      if Opens(text) then Move("", if text[1] == '/' then Line else Block, 2)
      else Move([c], if c == '\'' || c == '"' then Quoted(c) else Code, 1)
  }

  function Strip(mode: Mode, text: string): string
    decreases |text|
  {
    if text == "" then ""
    else
      var m := Next(mode, text);
      m.kept + Strip(m.mode, text[m.taken..])
  }

  /** `strip_c_comments`. */
  method StripComments(text: string) returns (output: string)
    ensures output == Strip(Code, text)
  {
    output := "";
    var index, mode := 0, Code;
    assert text[0..] == text;
    while index < |text|
      invariant 0 <= index <= |text|
      invariant output + Strip(mode, text[index..]) == Strip(Code, text)
    {
      ghost var rest := text[index..];
      ghost var m, before := Next(mode, rest), output;
      var c := text[index];
      var hasNext := index + 1 < |text|;
      if mode == Line {
        if c == '\n' {
          output := output + [c];
          mode := Code;
        }
        index := index + 1;
      } else if mode == Block {
        if c == '*' && hasNext && text[index + 1] == '/' {
          mode := Code;
          index := index + 2;
        } else {
          if c == '\n' {
            output := output + [c];
          }
          index := index + 1;
        }
      } else if mode.Quoted? {
        output := output + [c];
        if c == '\\' && hasNext {
          output := output + [text[index + 1]];
          assert rest[..2] == [c] + [text[index + 1]];
          index := index + 2;
        } else {
          if c == mode.quote {
            mode := Code;
          }
          index := index + 1;
        }
      } else if c == '/' && hasNext && text[index + 1] == '/' {
        mode := Line;
        index := index + 2;
      } else if c == '/' && hasNext && text[index + 1] == '*' {
        mode := Block;
        index := index + 2;
      } else {
        output := output + [c];
        if c == '\'' || c == '"' {
          mode := Quoted(c);
        }
        index := index + 1;
      }
      assert output == before + m.kept && mode == m.mode;
      assert rest[m.taken..] == text[index..];
      Assoc(before, m.kept, Strip(mode, text[index..]));
    }
    assert text[index..] == "";
    assert output + "" == output;
  }

  lemma Assoc(a: string, b: string, c: string)
    ensures (a + b) + c == a + (b + c)
  {
  }

  // --- the output read again -------------------------------------------------------------

  /** The state in which the output is read where the input was read in `mode`. */
  function Resting(mode: Mode): Mode {
    if mode.Quoted? then mode else Code
  }

  /** A `/` that was kept is still followed by what followed it: removing a comment
      never brings two characters together into a new opener. */
  lemma KeptSlash(rest: string)
    requires rest != "" && rest[0] != '/'
    ensures Strip(Code, rest) != "" && Strip(Code, rest)[0] == rest[0]
  {
  }

  lemma Replay(mode: Mode, text: string)
    requires text != "" && Next(mode, text).kept != ""
    ensures var m := Next(mode, text);
            var out := m.kept + Strip(m.mode, text[m.taken..]);
            Next(Resting(mode), out) == Move(m.kept, Resting(m.mode), |m.kept|)
  {
    var m := Next(mode, text);
    var rest := text[m.taken..];
    var out := m.kept + Strip(m.mode, rest);
    if mode.Quoted? && m.taken == 2 {
      assert out[..2] == m.kept;
    } else if mode == Code && text[0] == '/' && rest != "" {
      KeptSlash(rest);
    }
  }

  lemma SplitOut(kept: string, tail: string)
    ensures (kept + tail)[|kept|..] == tail
  {
  }

  /** Stripping twice is stripping once, from every state, terminated or not. */
  lemma {:induction false} Idempotent(mode: Mode, text: string)
    ensures Strip(Resting(mode), Strip(mode, text)) == Strip(mode, text)
    decreases |text|
  {
    if text != "" {
      var m := Next(mode, text);
      var tail := Strip(m.mode, text[m.taken..]);
      Idempotent(m.mode, text[m.taken..]);
      if m.kept == "" {
        assert m.kept + tail == tail;
      } else {
        Replay(mode, text);
        SplitOut(m.kept, tail);
      }
    }
  }

  /** A comment opener outside every literal, reading from `mode`. */
  predicate HasOpener(mode: Mode, text: string)
    decreases |text|
  {
    text != "" && ((mode == Code && Opens(text)) || var m := Next(mode, text); HasOpener(m.mode, text[m.taken..]))
  }

  lemma {:induction false} NoOpenerLeft(mode: Mode, text: string)
    ensures !HasOpener(Resting(mode), Strip(mode, text))
    decreases |text|
  {
    if text != "" {
      var m := Next(mode, text);
      var tail := Strip(m.mode, text[m.taken..]);
      NoOpenerLeft(m.mode, text[m.taken..]);
      if m.kept == "" {
        assert m.kept + tail == tail;
      } else {
        Replay(mode, text);
        SplitOut(m.kept, tail);
      }
    }
  }

  lemma {:induction false} StripShortens(mode: Mode, text: string)
    ensures |Strip(mode, text)| <= |text|
    ensures HasOpener(mode, text) ==> |Strip(mode, text)| < |text|
    ensures !mode.Line? && !mode.Block? && !HasOpener(mode, text) ==> Strip(mode, text) == text
    decreases |text|
  {
    if text != "" {
      var m := Next(mode, text);
      StripShortens(m.mode, text[m.taken..]);
      assert text == text[..m.taken] + text[m.taken..];
    }
  }

  /** Text is left alone exactly when it has no comment opener outside a literal, and
      the output never has one. */
  lemma FixedPoints(text: string)
    ensures Strip(Code, text) == text <==> !HasOpener(Code, text)
    ensures !HasOpener(Code, Strip(Code, text))
    ensures Strip(Code, Strip(Code, text)) == Strip(Code, text)
  {
    StripShortens(Code, text);
    NoOpenerLeft(Code, text);
    Idempotent(Code, text);
  }

  // --- what survives -----------------------------------------------------------------------

  function Newlines(text: string): nat {
    if text == "" then 0 else (if text[0] == '\n' then 1 else 0) + Newlines(text[1..])
  }

  lemma {:induction false} NewlinesConcat(a: string, b: string)
    ensures Newlines(a + b) == Newlines(a) + Newlines(b)
  {
    if a == "" {
      assert a + b == b;
    } else {
      assert (a + b)[1..] == a[1..] + b;
      NewlinesConcat(a[1..], b);
    }
  }

  lemma NewlinesOfMove(mode: Mode, text: string)
    requires text != ""
    ensures var m := Next(mode, text); Newlines(m.kept) == Newlines(text[..m.taken])
  {
    var m := Next(mode, text);
    if m.taken == 1 {
      assert text[..1] == [text[0]] && text[..1][1..] == "";
    } else if mode.Quoted? {
    } else {
      assert text[..2][1..] == [text[1]] && [text[1]][1..] == "";
    }
  }

  /** Line numbers are preserved. */
  lemma {:induction false} NewlinesPreserved(mode: Mode, text: string)
    ensures Newlines(Strip(mode, text)) == Newlines(text)
    decreases |text|
  {
    if text != "" {
      var m := Next(mode, text);
      NewlinesOfMove(mode, text);
      NewlinesPreserved(m.mode, text[m.taken..]);
      NewlinesConcat(m.kept, Strip(m.mode, text[m.taken..]));
      NewlinesConcat(text[..m.taken], text[m.taken..]);
      assert text == text[..m.taken] + text[m.taken..];
    }
  }

  /** The string and character literals of a text, quotes and escapes included; a
      literal the text does not close is one too. `open` is what has been read of the
      literal being scanned. */
  function Literals(mode: Mode, open: string, text: string): seq<string>
    decreases |text|
  {
    if text == "" then (if mode.Quoted? then [open] else [])
    else
      var m := Next(mode, text);
      var rest := text[m.taken..];
      if mode.Quoted? && !m.mode.Quoted? then [open + m.kept] + Literals(m.mode, "", rest)
      else if mode.Quoted? then Literals(m.mode, open + m.kept, rest)
      else Literals(m.mode, if m.mode.Quoted? then m.kept else "", rest)
  }

  /** Literals are copied byte for byte, in order, and none is invented or lost. */
  lemma {:induction false} LiteralsPreserved(mode: Mode, open: string, text: string)
    ensures Literals(Resting(mode), open, Strip(mode, text)) == Literals(mode, open, text)
    decreases |text|
  {
    if text != "" {
      var m := Next(mode, text);
      var rest := text[m.taken..];
      var tail := Strip(m.mode, rest);
      var next := if mode.Quoted? then (if m.mode.Quoted? then open + m.kept else "") else if m.mode.Quoted? then m.kept else "";
      LiteralsPreserved(m.mode, next, rest);
      if m.kept == "" {
        assert m.kept + tail == tail;
        OpenIrrelevant(open, "", tail);
      } else {
        Replay(mode, text);
        SplitOut(m.kept, tail);
      }
    }
  }

  lemma OpenIrrelevant(a: string, b: string, text: string)
    ensures Literals(Code, a, text) == Literals(Code, b, text)
  {
  }
}
