/** Which instructions scripts/abi_audit.py counts as writing a callee-saved register: the
    listed mnemonics, with or without a suffix after a dot, and every name of the register. */
module AbiWrites {
  import opened Common
  import opened AbiAudit

  // --- mnemonics -----------------------------------------------------------------------------

  /** `m` is `stem`, alone or before a dot. */
  ghost predicate HasStem(m: string, stem: string) {
    '.' !in stem && (m == stem || exists rest :: m == stem + "." + rest)
  }

  lemma {:induction false} UpToStops(s: string, c: char)
    ensures c !in UpTo(s, c) && UpTo(s, c) <= s
    ensures UpTo(s, c) != s ==> s[|UpTo(s, c)|] == c
  {
    if s != "" && s[0] != c {
      var stem := UpTo(s[1..], c);
      UpToStops(s[1..], c);
      StemOneLonger(s[0], stem, s[1..]);
      assert s == [s[0]] + s[1..];
    }
  }

  lemma StemOneLonger(first: char, stem: string, rest: string)
    requires stem <= rest
    ensures [first] + stem <= [first] + rest
    ensures [first] + stem == [first] + rest <==> stem == rest
    ensures |stem| < |rest| ==> ([first] + rest)[|stem| + 1] == rest[|stem|]
  {
    assert ([first] + stem)[1..] == stem && ([first] + rest)[1..] == rest;
  }

  lemma {:induction false} UpToIs(stem: string, c: char, tail: string)
    requires c !in stem && (tail == "" || tail[0] == c)
    ensures UpTo(stem + tail, c) == stem
  {
    if stem == "" {
      assert stem + tail == tail;
    } else {
      assert (stem + tail)[1..] == stem[1..] + tail;
      UpToIs(stem[1..], c, tail);
    }
  }

  lemma StemIff(m: string, stem: string)
    ensures HasStem(m, stem) <==> UpTo(m, '.') == stem
  {
    UpToStops(m, '.');
    if UpTo(m, '.') == stem && m != stem {
      assert m == stem + "." + m[|stem| + 1..];
    }
    if HasStem(m, stem) {
      if m == stem {
        UpToIs(stem, '.', "");
        assert stem + "" == stem;
      } else {
        var rest :| m == stem + "." + rest;
        UpToIs(stem, '.', "." + rest);
        assert stem + ("." + rest) == m;
      }
    }
  }

  /** The mnemonics whose first operand is written: these, and the conditional moves. */
  ghost predicate WritesFirst(m: string) {
    exists stem :: HasStem(m, stem) && WritingStem(stem)
  }

  predicate WritingStem(stem: string) {
    "cmov" <= stem || stem in {
      "mov", "movzx", "movsx", "movsxd", "lea", "add", "sub", "and", "or", "xor",
      "adc", "sbb", "inc", "dec", "neg", "not", "shl", "shr", "sar", "rol", "ror",
      "imul", "xchg", "sete", "setne", "seta", "setae", "setb", "setbe", "setg",
      "setge", "setl", "setle", "setz", "setnz", "bswap", "pop"}
  }

  lemma BaseIff(stem: string)
    ensures var base := if "cmov" <= stem then "cmov" else stem;
            base in WRITE_FIRST_OPERAND <==> WritingStem(stem)
  {
  }

  lemma WritesFirstIff(m: string)
    ensures Base(m) in WRITE_FIRST_OPERAND <==> WritesFirst(m)
  {
    StemIff(m, UpTo(m, '.'));
    BaseIff(UpTo(m, '.'));
    forall stem | HasStem(m, stem)
      ensures stem == UpTo(m, '.')
    {
      StemIff(m, stem);
    }
  }

  // --- registers --------------------------------------------------------------------------------

  function Aliases(r: Reg): set<string> {
    match r
    case Rbx => {"rbx", "ebx", "bx", "bl", "bh"}
    case Rbp => {"rbp", "ebp", "bp", "bpl"}
    case R12 => Numbered("r12")
    case R13 => Numbered("r13")
    case R14 => Numbered("r14")
    case R15 => Numbered("r15")
  }

  function Numbered(name: string): set<string> {
    {name, name + "d", name + "w", name + "b"}
  }

  function Percents(n: nat): string {
    if n == 0 then "" else "%" + Percents(n - 1)
  }

  /** `operand` is a name of `r`, perhaps behind percent signs. */
  ghost predicate Spells(operand: string, r: Reg) {
    exists n: nat, name :: operand == Percents(n) + name && name in Aliases(r)
  }

  lemma NumberedNames()
    ensures Numbered("r12") == {"r12", "r12d", "r12w", "r12b"} && Numbered("r13") == {"r13", "r13d", "r13w", "r13b"}
    ensures Numbered("r14") == {"r14", "r14d", "r14w", "r14b"} && Numbered("r15") == {"r15", "r15d", "r15w", "r15b"}
  {
    assert "r12" + "d" == "r12d" && "r12" + "w" == "r12w" && "r12" + "b" == "r12b";
    assert "r13" + "d" == "r13d" && "r13" + "w" == "r13w" && "r13" + "b" == "r13b";
    assert "r14" + "d" == "r14d" && "r14" + "w" == "r14w" && "r14" + "b" == "r14b";
    assert "r15" + "d" == "r15d" && "r15" + "w" == "r15w" && "r15" + "b" == "r15b";
  }

  lemma RegisterIsAlias(name: string)
    requires name in REGISTERS
    ensures name in Aliases(REGISTERS[name])
  {
    NumberedNames();
  }

  lemma RbxAliases(name: string)
    requires name in {"rbx", "ebx", "bx", "bl", "bh"}
    ensures name in REGISTERS && REGISTERS[name] == Rbx
  {
  }

  lemma RbpAliases(name: string)
    requires name in {"rbp", "ebp", "bp", "bpl"}
    ensures name in REGISTERS && REGISTERS[name] == Rbp
  {
  }

  lemma LowNumberedAliases(name: string, r: Reg)
    requires (r == R12 || r == R13) && name in Aliases(r)
    ensures name in REGISTERS && REGISTERS[name] == r
  {
    NumberedNames();
  }

  lemma HighNumberedAliases(name: string, r: Reg)
    requires (r == R14 || r == R15) && name in Aliases(r)
    ensures name in REGISTERS && REGISTERS[name] == r
  {
    NumberedNames();
  }

  lemma AliasIff(name: string, r: Reg)
    ensures name in REGISTERS && REGISTERS[name] == r <==> name in Aliases(r)
  {
    if name in Aliases(r) {
      if r == Rbx {
        RbxAliases(name);
      } else if r == Rbp {
        RbpAliases(name);
      } else if r == R12 || r == R13 {
        LowNumberedAliases(name, r);
      } else {
        HighNumberedAliases(name, r);
      }
    } else if name in REGISTERS {
      RegisterIsAlias(name);
    }
  }

  lemma AliasesArePlain(name: string, r: Reg)
    requires name in Aliases(r)
    ensures name != "" && name[0] != '%' && '[' !in name
  {
    NumberedNames();
  }

  lemma {:induction false} PercentsOff(n: nat, name: string)
    requires name == "" || name[0] != '%'
    ensures WithoutPercents(Percents(n) + name) == name
  {
    var s := Percents(n) + name;
    if n == 0 {
      assert s == name;
    } else {
      assert s[1..] == Percents(n - 1) + name;
      PercentsOff(n - 1, name);
    }
  }

  lemma {:induction false} PercentsBack(s: string) returns (n: nat)
    ensures s == Percents(n) + WithoutPercents(s)
  {
    if s != "" && s[0] == '%' {
      n := PercentsBack(s[1..]);
      n := n + 1;
      assert s == "%" + s[1..];
    } else {
      n := 0;
    }
  }

  lemma PercentsHaveNoBracket(n: nat)
    ensures '[' !in Percents(n)
  {
  }

  lemma SpellsIff(operand: string, r: Reg)
    ensures Spells(operand, r) <==> Canonical(operand) == Some(r)
    ensures Spells(operand, r) ==> '[' !in operand
  {
    var n := PercentsBack(operand);
    AliasIff(WithoutPercents(operand), r);
    forall n: nat, name | operand == Percents(n) + name && name in Aliases(r)
      ensures Canonical(operand) == Some(r) && '[' !in operand
    {
      AliasesArePlain(name, r);
      PercentsOff(n, name);
      AliasIff(name, r);
      PercentsHaveNoBracket(n);
    }
  }

  /** An instruction is counted as a write of `r` exactly when its mnemonic is one that writes
      its first operand and that operand is one of the names of `r`. */
  lemma WrittenIff(insn: Insn, r: Reg)
    ensures Written(insn) == Some(r) <==>
            WritesFirst(insn.mnemonic) && insn.operands != [] && Spells(insn.operands[0], r)
  {
    WritesFirstIff(insn.mnemonic);
    if insn.operands != [] {
      SpellsIff(insn.operands[0], r);
    }
  }
}
