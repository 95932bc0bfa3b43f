/** C text as a grammar: code, literals and comments, terminated or not at the end of the
    text. It owes nothing to the scanner of scripts/gate_m11.py, which is shown to delete
    exactly the comments and keep exactly the rest. */
module CommentGrammar {
  import opened Bytes
  import opened CommentStripper

  // --- pieces ------------------------------------------------------------------------------

  /** One element of a literal: a character standing for itself, or a backslash and the
      character it escapes. */
  datatype Item = Plain(c: char) | Escape(c: char) {
    function Render(): string {
      if Plain? then [c] else ['\\', c]
    }
  }

  datatype Piece =
    | CodeChar(c: char)
    | Literal(quote: char, items: seq<Item>, end: string)
    | LineComment(text: string)
    | BlockComment(text: string, closed: bool)
  {
    function Render(): string {
      match this
      case CodeChar(c) => [c]
      case Literal(q, items, end) => [q] + RenderItems(items) + end
      case LineComment(t) => "//" + t
      case BlockComment(t, closed) => "/*" + t + if closed then "*/" else ""
    }
    /** What is left of it. */
    function Kept(): string {
      match this
      case CodeChar(_) => Render()
      case Literal(_, _, _) => Render()
      case LineComment(_) => ""
      case BlockComment(t, _) => NewlinesOf(t)
    }
  }

  function RenderItems(items: seq<Item>): string {
    if items == [] then "" else items[0].Render() + RenderItems(items[1..])
  }

  /** The newlines of a text, and nothing else. */
  function NewlinesOf(t: string): string {
    if t == "" then "" else (if t[0] == '\n' then "\n" else "") + NewlinesOf(t[1..])
  }

  function Render(ps: seq<Piece>): string {
    if ps == [] then "" else ps[0].Render() + Render(ps[1..])
  }

  function Kept(ps: seq<Piece>): string {
    if ps == [] then "" else ps[0].Kept() + Kept(ps[1..])
  }

  // --- which sequences of pieces are C ----------------------------------------------------------

  predicate IsQuote(c: char) { c == '\'' || c == '"' }

  /** Between the quotes: neither the quote nor a backslash stands for itself. */
  predicate ValidItems(q: char, items: seq<Item>) {
    forall i :: 0 <= i < |items| && items[i].Plain? ==> items[i].c != q && items[i].c != '\\'
  }

  predicate Comments(next: string) {
    next != "" && (next[0] == '/' || next[0] == '*')
  }

  /** The piece is well formed before `after`, the rest of the text: code is not the start of
      a comment or a literal; a literal ends at its own quote, or at the end of the text,
      perhaps in a lone backslash; a line comment ends before a newline or at the end of the
      text; a block comment ends at its first `* /`, or at the end of the text. */
  ghost predicate Fits(p: Piece, after: string) {
    match p
    case CodeChar(c) => !IsQuote(c) && (c == '/' ==> !Comments(after))
    case Literal(q, items, end) =>
      IsQuote(q) && ValidItems(q, items) && (end == [q] || (after == "" && (end == "" || end == "\\")))
    case LineComment(t) => '\n' !in t && (after == "" || after[0] == '\n')
    case BlockComment(t, closed) =>
      if closed then forall k: nat :: k < |t| ==> !At(t + "*/", "*/", k)
      else after == "" && forall k: nat :: !At(t, "*/", k)
  }

  ghost predicate WellFormed(ps: seq<Piece>) {
    ps == [] || (Fits(ps[0], Render(ps[1..])) && WellFormed(ps[1..]))
  }

  // --- the scanner on one piece --------------------------------------------------------------------

  lemma StripItem(q: char, item: Item, tail: string)
    requires IsQuote(q) && ValidItems(q, [item])
    ensures Strip(Quoted(q), item.Render() + tail) == item.Render() + Strip(Quoted(q), tail)
  {
    var text := item.Render() + tail;
    assert [item][0] == item;
    if item.Escape? {
      assert text[..2] == item.Render() && text[2..] == tail;
    } else {
      assert text[1..] == tail;
    }
  }

  lemma {:induction false} StripItems(q: char, items: seq<Item>, rest: string)
    requires IsQuote(q) && ValidItems(q, items)
    ensures Strip(Quoted(q), RenderItems(items) + rest) == RenderItems(items) + Strip(Quoted(q), rest)
  {
    if items == [] {
      assert RenderItems(items) + rest == rest;
    } else {
      var first, more := items[0].Render(), RenderItems(items[1..]);
      Assoc(first, more, rest);
      StripItem(q, items[0], more + rest);
      StripItems(q, items[1..], rest);
      Assoc(first, more, Strip(Quoted(q), rest));
    }
  }

  lemma StripQuote(q: char, tail: string)
    requires IsQuote(q)
    ensures Strip(Code, [q] + tail) == [q] + Strip(Quoted(q), tail)
  {
    assert ([q] + tail)[1..] == tail;
  }

  lemma StripLiteral(q: char, items: seq<Item>, end: string, after: string)
    requires Fits(Literal(q, items, end), after)
    ensures Strip(Code, Literal(q, items, end).Render() + after) == Literal(q, items, end).Render() + Strip(Code, after)
  {
    var inner := RenderItems(items);
    FourParts([q], inner, end, after);
    StripQuote(q, inner + (end + after));
    StripItems(q, items, end + after);
    StripEnd(q, end, after);
    FourParts([q], inner, end, Strip(Code, after));
  }

  lemma FourParts(a: string, b: string, c: string, d: string)
    ensures (a + b + c) + d == a + (b + (c + d))
  {
  }

  lemma StripEnd(q: char, end: string, after: string)
    requires IsQuote(q) && (end == [q] || (after == "" && (end == "" || end == "\\")))
    ensures Strip(Quoted(q), end + after) == end + Strip(Code, after)
  {
    if end == [q] {
      assert (end + after)[1..] == after;
    } else if end == "\\" {
      assert end + after == "\\" && end[1..] == "";
    } else {
      assert end + after == "";
    }
  }

  lemma {:induction false} StripLineText(t: string, after: string)
    requires '\n' !in t && (after == "" || after[0] == '\n')
    ensures Strip(Line, t + after) == Strip(Code, after)
  {
    if t == "" {
      assert t + after == after;
    } else {
      assert (t + after)[1..] == t[1..] + after;
      StripLineText(t[1..], after);
    }
  }

  lemma {:induction false} StripBlockText(t: string, after: string)
    requires forall k: nat :: k < |t| ==> !At(t + "*/", "*/", k)
    ensures Strip(Block, t + "*/" + after) == NewlinesOf(t) + Strip(Code, after)
  {
    var text := t + "*/" + after;
    if t == "" {
      assert text[2..] == after;
    } else {
      var u := t[1..];
      assert text[1..] == u + "*/" + after;
      assert !At(t + "*/", "*/", 0);
      assert (t + "*/")[0..2] == text[..2];
      forall k: nat | k < |u|
        ensures !At(u + "*/", "*/", k)
      {
        assert !At(t + "*/", "*/", k + 1);
        assert (u + "*/")[k..k + 2] == (t + "*/")[k + 1..k + 3];
      }
      StripBlockText(u, after);
    }
  }

  lemma {:induction false} StripOpenBlock(t: string)
    requires forall k: nat :: !At(t, "*/", k)
    ensures Strip(Block, t) == NewlinesOf(t)
  {
    if t != "" {
      var u := t[1..];
      assert !At(t, "*/", 0);
      assert |t| >= 2 ==> t[0..2] != "*/" && t[0..2] == [t[0], t[1]];
      forall k: nat
        ensures !At(u, "*/", k)
      {
        assert !At(t, "*/", k + 1);
        assert k + 2 <= |u| ==> u[k..k + 2] == t[k + 1..k + 3];
      }
      StripOpenBlock(u);
    }
  }

  lemma StripCodeChar(c: char, after: string)
    requires Fits(CodeChar(c), after)
    ensures Strip(Code, [c] + after) == [c] + Strip(Code, after)
  {
    assert ([c] + after)[1..] == after;
  }

  lemma StripOpeners(rest: string)
    ensures Strip(Code, "//" + rest) == Strip(Line, rest) && Strip(Code, "/*" + rest) == Strip(Block, rest)
  {
    assert ("//" + rest)[2..] == rest && ("/*" + rest)[2..] == rest;
    assert "" + Strip(Line, rest) == Strip(Line, rest) && "" + Strip(Block, rest) == Strip(Block, rest);
  }

  lemma StripLine(t: string, after: string)
    requires Fits(LineComment(t), after)
    ensures Strip(Code, ("//" + t) + after) == "" + Strip(Code, after)
  {
    Assoc("//", t, after);
    StripOpeners(t + after);
    StripLineText(t, after);
    assert "" + Strip(Code, after) == Strip(Code, after);
  }

  lemma StripBlock(t: string, closed: bool, after: string)
    requires Fits(BlockComment(t, closed), after)
    ensures Strip(Code, BlockComment(t, closed).Render() + after) == NewlinesOf(t) + Strip(Code, after)
  {
    if closed {
      FourParts("/*", t, "*/", after);
      Assoc(t, "*/", after);
      StripOpeners(t + "*/" + after);
      StripBlockText(t, after);
    } else {
      FourParts("/*", t, "", "");
      assert t + ("" + "") == t;
      StripOpeners(t);
      StripOpenBlock(t);
      assert NewlinesOf(t) + "" == NewlinesOf(t);
    }
  }

  lemma StripPiece(p: Piece, after: string)
    requires Fits(p, after)
    ensures Strip(Code, p.Render() + after) == p.Kept() + Strip(Code, after)
  {
    match p
    case CodeChar(c) => StripCodeChar(c, after);
    case Literal(q, items, end) => StripLiteral(q, items, end, after);
    case LineComment(t) => StripLine(t, after);
    case BlockComment(t, closed) => StripBlock(t, closed, after);
  }

  /** The scanner keeps the code, the literals and the newlines of block comments, and
      deletes the rest. */
  lemma {:induction false} StripKeeps(ps: seq<Piece>)
    requires WellFormed(ps)
    ensures Strip(Code, Render(ps)) == Kept(ps)
  {
    if ps != [] {
      StripPiece(ps[0], Render(ps[1..]));
      StripKeeps(ps[1..]);
    }
  }

  // --- every text is C ---------------------------------------------------------------------------------

  /** A literal's inside, after its quote: its items, where it ends, and what follows. */
  lemma {:induction false} ReadLiteral(q: char, text: string) returns (items: seq<Item>, end: string, after: string)
    requires IsQuote(q)
    ensures text == RenderItems(items) + end + after
    ensures Fits(Literal(q, items, end), after)
    decreases |text|
  {
    if text == "" {
      items, end, after := [], "", "";
    } else if text[0] == q {
      items, end, after := [], [q], text[1..];
      assert text == [q] + text[1..];
    } else if text == "\\" {
      items, end, after := [], "\\", "";
    } else {
      var item := if text[0] == '\\' then Escape(text[1]) else Plain(text[0]);
      var n := |item.Render()|;
      var more;
      more, end, after := ReadLiteral(q, text[n..]);
      items := [item] + more;
      assert text == item.Render() + text[n..];
      ConsItem(q, item, more, end, after);
    }
  }

  lemma ConsItem(q: char, item: Item, more: seq<Item>, end: string, after: string)
    requires ValidItems(q, more) && (item.Plain? ==> item.c != q && item.c != '\\')
    ensures ValidItems(q, [item] + more)
    ensures RenderItems([item] + more) + end + after == item.Render() + (RenderItems(more) + end + after)
  {
    assert ([item] + more)[1..] == more;
    Assoc(item.Render(), RenderItems(more), end);
    Assoc(item.Render(), RenderItems(more) + end, after);
  }

  /** Up to the first newline. */
  lemma {:induction false} ReadLine(text: string) returns (t: string, after: string)
    ensures text == t + after && Fits(LineComment(t), after)
    decreases |text|
  {
    if text == "" || text[0] == '\n' {
      t, after := "", text;
    } else {
      var u;
      u, after := ReadLine(text[1..]);
      t := [text[0]] + u;
    }
  }

  /** Up to the first end of comment. */
  lemma ReadBlock(text: string) returns (t: string, closed: bool, after: string)
    ensures text == t + (if closed then "*/" else "") + after && Fits(BlockComment(t, closed), after)
  {
    var n := Find(text, "*/");
    if n < 0 {
      t, closed, after := text, false, "";
    } else {
      t, closed, after := text[..n], true, text[n + 2..];
      assert text[n..n + 2] == "*/";
      assert text == t + "*/" + after;
      forall k: nat | k < |t|
        ensures !At(t + "*/", "*/", k)
      {
        assert !At(text, "*/", k);
        assert (t + "*/")[k..k + 2] == text[k..k + 2];
      }
    }
  }

  lemma ReadQuoted(text: string) returns (p: Piece, after: string)
    requires text != "" && IsQuote(text[0])
    ensures text == p.Render() + after && Fits(p, after) && |after| < |text|
  {
    var q := text[0];
    var items, end;
    items, end, after := ReadLiteral(q, text[1..]);
    p := Literal(q, items, end);
    assert text == [q] + text[1..];
    FourParts([q], RenderItems(items), end, after);
    Assoc(RenderItems(items), end, after);
  }

  lemma ReadComment(text: string) returns (p: Piece, after: string)
    requires |text| >= 2 && text[0] == '/' && (text[1] == '/' || text[1] == '*')
    ensures text == p.Render() + after && Fits(p, after) && |after| < |text|
  {
    assert text == [text[0], text[1]] + text[2..];
    if text[1] == '/' {
      var t;
      t, after := ReadLine(text[2..]);
      p := LineComment(t);
      Assoc("//", t, after);
    } else {
      var t, closed;
      t, closed, after := ReadBlock(text[2..]);
      p := BlockComment(t, closed);
      FourParts("/*", t, if closed then "*/" else "", after);
      Assoc(t, if closed then "*/" else "", after);
    }
  }

  /** The first piece of a text. */
  lemma ReadPiece(text: string) returns (p: Piece, after: string)
    requires text != ""
    ensures text == p.Render() + after && Fits(p, after) && |after| < |text|
  {
    if IsQuote(text[0]) {
      p, after := ReadQuoted(text);
    } else if |text| >= 2 && text[0] == '/' && (text[1] == '/' || text[1] == '*') {
      p, after := ReadComment(text);
    } else {
      p, after := CodeChar(text[0]), text[1..];
      assert text == [text[0]] + text[1..];
    }
  }

  /** Every text, terminated or not, is a well-formed sequence of pieces. */
  lemma {:induction false} EveryTextParses(text: string) returns (ps: seq<Piece>)
    ensures WellFormed(ps) && Render(ps) == text
    decreases |text|
  {
    if text == "" {
      ps := [];
    } else {
      var p, after := ReadPiece(text);
      var more := EveryTextParses(after);
      ps := [p] + more;
      assert ps[1..] == more;
    }
  }

  // --- what the output is made of ---------------------------------------------------------------------

  /** The pieces of the output: comments gone, their newlines left as code. */
  function Cleaned(ps: seq<Piece>): seq<Piece> {
    if ps == [] then []
    else
      (match ps[0]
       case CodeChar(_) => [ps[0]]
       case Literal(_, _, _) => [ps[0]]
       case LineComment(_) => []
       case BlockComment(t, _) => Newlines(NewlinesOf(t))) + Cleaned(ps[1..])
  }

  function Newlines(t: string): seq<Piece> {
    if t == "" then [] else [CodeChar(t[0])] + Newlines(t[1..])
  }

  /** The string and character literals of a text, byte for byte and in order. */
  function LiteralsOf(ps: seq<Piece>): seq<string> {
    if ps == [] then []
    else (if ps[0].Literal? then [ps[0].Render()] else []) + LiteralsOf(ps[1..])
  }

  predicate HasComment(ps: seq<Piece>) {
    exists i :: 0 <= i < |ps| && (ps[i].LineComment? || ps[i].BlockComment?)
  }

  lemma {:induction false} NewlinesAre(t: string)
    ensures forall i :: 0 <= i < |NewlinesOf(t)| ==> NewlinesOf(t)[i] == '\n'
  {
    if t != "" {
      NewlinesAre(t[1..]);
    }
  }

  /** Well-formed text without comments, what it spells, and its literals. */
  ghost predicate Tidy(ps: seq<Piece>, text: string, literals: seq<string>) {
    WellFormed(ps) && !HasComment(ps) && Render(ps) == text && LiteralsOf(ps) == literals
  }

  lemma TidyCons(p: Piece, ps: seq<Piece>, text: string, literals: seq<string>)
    requires Tidy(ps, text, literals) && Fits(p, text) && (p.CodeChar? || p.Literal?)
    ensures Tidy([p] + ps, p.Render() + text, (if p.Literal? then [p.Render()] else []) + literals)
  {
    assert ([p] + ps)[1..] == ps;
    forall i | 0 <= i < |[p] + ps|
      ensures !([p] + ps)[i].LineComment? && !([p] + ps)[i].BlockComment?
    {
      if i > 0 {
        assert ([p] + ps)[i] == ps[i - 1];
      }
    }
  }

  /** Newlines, as code, before anything tidy. */
  lemma {:induction false} TidyNewlines(t: string, ps: seq<Piece>, text: string, literals: seq<string>)
    requires (forall i :: 0 <= i < |t| ==> t[i] == '\n') && Tidy(ps, text, literals)
    ensures Tidy(Newlines(t) + ps, t + text, literals)
  {
    if t == "" {
      assert Newlines(t) + ps == ps && t + text == text;
    } else {
      var more := Newlines(t[1..]) + ps;
      TidyNewlines(t[1..], ps, text, literals);
      TidyCons(CodeChar('\n'), more, t[1..] + text, literals);
      NewlinesCons(t, ps, text);
      assert [] + literals == literals;
    }
  }

  lemma NewlinesCons(t: string, ps: seq<Piece>, text: string)
    requires t != "" && t[0] == '\n'
    ensures Newlines(t) + ps == [CodeChar('\n')] + (Newlines(t[1..]) + ps)
    ensures t + text == ['\n'] + (t[1..] + text)
  {
    PieceAssoc([CodeChar('\n')], Newlines(t[1..]), ps);
    assert t == ['\n'] + t[1..];
    Assoc(['\n'], t[1..], text);
  }

  lemma PieceAssoc(a: seq<Piece>, b: seq<Piece>, c: seq<Piece>)
    ensures (a + b) + c == a + (b + c)
  {
  }

  /** What follows a kept slash in the text still follows it in the output. */
  lemma SlashStaysAlone(ps: seq<Piece>)
    requires WellFormed(ps) && !Comments(Render(ps))
    ensures !Comments(Render(Cleaned(ps)))
  {
    if ps != [] {
      match ps[0]
      case CodeChar(c) => FirstOf(ps[0], Cleaned(ps[1..]));
      case Literal(q, _, _) => FirstOf(ps[0], Cleaned(ps[1..]));
      case _ => CommentStarts(ps[0], Render(ps[1..]));
    }
  }

  lemma CommentStarts(p: Piece, after: string)
    requires p.LineComment? || p.BlockComment?
    ensures Comments(p.Render() + after)
  {
    assert p.Render()[0] == '/';
  }

  lemma FirstOf(p: Piece, more: seq<Piece>)
    requires p.CodeChar? || p.Literal?
    ensures Render([p] + more) != "" && Render([p] + more)[0] == p.Render()[0]
  {
    assert ([p] + more)[1..] == more;
  }

  /** The pieces left of a text are tidy, spell what is kept, and hold its literals. */
  lemma {:induction false} CleanedIsTidy(ps: seq<Piece>)
    requires WellFormed(ps)
    ensures Tidy(Cleaned(ps), Kept(ps), LiteralsOf(ps))
  {
    if ps != [] {
      var more, text, literals := Cleaned(ps[1..]), Kept(ps[1..]), LiteralsOf(ps[1..]);
      CleanedIsTidy(ps[1..]);
      if ps[0].CodeChar? || ps[0].Literal? {
        if ps[0].CodeChar? && ps[0].c == '/' {
          SlashStaysAlone(ps[1..]);
        }
        if Render(ps[1..]) == "" {
          NothingKept(ps[1..]);
        }
        TidyCons(ps[0], more, text, literals);
      } else if ps[0].LineComment? {
        assert [] + more == more && "" + text == text && [] + literals == literals;
      } else {
        NewlinesAre(ps[0].text);
        TidyNewlines(NewlinesOf(ps[0].text), more, text, literals);
        assert [] + literals == literals;
      }
    }
  }

  lemma EveryPieceShows(p: Piece)
    ensures p.Render() != ""
  {
  }

  lemma NothingKept(ps: seq<Piece>)
    requires Render(ps) == ""
    ensures Kept(ps) == ""
  {
    if ps != [] {
      EveryPieceShows(ps[0]);
    }
  }

  /** Every text is a sequence of code, literals and comments; the scanner's output is
      text without comments that has the same literals, byte for byte and in order. */
  lemma LiteralsSurvive(text: string) returns (ps: seq<Piece>, cleaned: seq<Piece>)
    ensures WellFormed(ps) && Render(ps) == text && Strip(Code, text) == Kept(ps)
    ensures Tidy(cleaned, Strip(Code, text), LiteralsOf(ps))
  {
    ps := EveryTextParses(text);
    StripKeeps(ps);
    CleanedIsTidy(ps);
    cleaned := Cleaned(ps);
  }
}
