/** What the audit of scripts/abi_audit.py is for: a binary that passes it, and whose
    return sequences pop in the right order, preserves the callee-saved registers of
    every caller. The audit reads text; the machine executes what that text does. */
module AbiSoundness {
  import opened Common
  import opened AbiAudit
  import opened AbiMachine

  // --- from text to operations ----------------------------------------------------------------

  const FULL_NAMES: map<string, Reg> :=
    map["rbx" := Rbx, "rbp" := Rbp, "r12" := R12, "r13" := R13, "r14" := R14, "r15" := R15]

  /** Which of the six registers an instruction really writes; the processor's business,
      so a parameter of everything below. Pushes, pops, the frame move, returns, calls and
      jumps do what their names say. */
  type WriteSets = Insn -> set<Reg>

  function Decode(writes: WriteSets, insn: Insn): Op {
    if insn.mnemonic == "push" && |insn.operands| == 1 && insn.operands[0] in FULL_NAMES then Push(FULL_NAMES[insn.operands[0]])
    else if insn.mnemonic == "pop" && |insn.operands| == 1 && insn.operands[0] in FULL_NAMES then Pop(FULL_NAMES[insn.operands[0]])
    else if insn == Insn("mov", ["rbp", "rsp"]) then FrameMov
    else if insn.mnemonic == "ret" then Ret
    else if insn.mnemonic == "call" then Call
    else if insn.mnemonic != "" && insn.mnemonic[0] == 'j' then Jump
    else Clobber(writes(insn))
  }

  /** The audit sees every register the body writes. */
  ghost predicate SeesWrites(writes: WriteSets, body: seq<Insn>) {
    forall i :: 0 <= i < |body| ==> Seen(writes, body[i])
  }

  ghost predicate Seen(writes: WriteSets, insn: Insn) {
    forall r :: r in writes(insn) ==> Written(insn) == Some(r)
  }

  lemma SeenIffNone(writes: WriteSets, insn: Insn)
    requires Written(insn).None?
    ensures Seen(writes, insn) <==> writes(insn) == {}
  {
    if writes(insn) != {} {
      var r :| r in writes(insn);
    }
  }

  function Code(writes: WriteSets, body: seq<Insn>): (code: seq<Op>)
    ensures |code| == |body| && forall i :: 0 <= i < |code| ==> code[i] == Decode(writes, body[i])
  {
    seq(|body|, i requires 0 <= i < |body| => Decode(writes, body[i]))
  }

  // --- leaves -----------------------------------------------------------------------------------

  lemma {:induction false} UpToAll(s: string, c: char)
    requires c !in s
    ensures UpTo(s, c) == s
  {
    if s != "" {
      UpToAll(s[1..], c);
    }
  }

  lemma PopIsItsOwnBase()
    ensures Base("pop") == "pop"
  {
    var m, c := "pop", "cmov";
    UpToAll(m, '.');
    assert m[0] == 'p' && c[0] == 'c';
  }

  lemma MovIsItsOwnBase()
    ensures Base("mov") == "mov"
  {
    var m, c := "mov", "cmov";
    UpToAll(m, '.');
    assert m[0] == 'm' && c[0] == 'c';
  }

  lemma FullNamesAreRegisters(name: string)
    requires name in FULL_NAMES
    ensures Canonical(name) == Some(FULL_NAMES[name]) && '[' !in name
  {
    assert name[0] == 'r';
  }

  lemma PopIsSeen(insn: Insn)
    requires insn.mnemonic == "pop" && |insn.operands| == 1 && insn.operands[0] in FULL_NAMES
    ensures Written(insn).Some?
  {
    PopIsItsOwnBase();
    FullNamesAreRegisters(insn.operands[0]);
  }

  lemma FrameMovIsSeen()
    ensures Written(Insn("mov", ["rbp", "rsp"])).Some?
  {
    MovIsItsOwnBase();
    FullNamesAreRegisters("rbp");
  }

  lemma UnwrittenOp(writes: WriteSets, insn: Insn)
    requires Written(insn).None?
    ensures !Decode(writes, insn).Pop? && !Decode(writes, insn).FrameMov?
    ensures Decode(writes, insn).Clobber? ==> Decode(writes, insn).regs == writes(insn)
  {
    if Decode(writes, insn).Pop? {
      PopIsSeen(insn);
    } else if Decode(writes, insn).FrameMov? {
      FrameMovIsSeen();
    }
  }

  /** What the audit's word on a leaf is worth: the leaf writes none of the six registers
      if and only if no instruction of it, other than a transfer of control, writes one
      unseen. */
  lemma LeafIsWritelessIff(writes: WriteSets, body: seq<Insn>)
    requires WritesNone(body)
    ensures Writeless(Code(writes, body)) <==>
            forall i :: 0 <= i < |body| && Decode(writes, body[i]).Clobber? ==> writes(body[i]) == {}
  {
    forall i | 0 <= i < |body|
      ensures var op := Code(writes, body)[i];
              !op.Pop? && !op.FrameMov? && (op.Clobber? ==> op.regs == writes(body[i]))
    {
      UnwrittenOp(writes, body[i]);
    }
  }

  lemma LeavesAreWriteless(writes: WriteSets, body: seq<Insn>)
    requires WritesNone(body) && SeesWrites(writes, body)
    ensures Writeless(Code(writes, body))
  {
    LeafIsWritelessIff(writes, body);
    forall i | 0 <= i < |body|
      ensures writes(body[i]) == {}
    {
      SeenIffNone(writes, body[i]);
    }
  }

  // --- framed functions --------------------------------------------------------------------------

  lemma PushDecodes(writes: WriteSets, name: string)
    requires name in FULL_NAMES
    ensures Decode(writes, Insn("push", [name])) == Push(FULL_NAMES[name])
  {
  }

  lemma FrameMovDecodes(writes: WriteSets)
    ensures Decode(writes, PROLOGUE[1]) == FrameMov
  {
  }

  lemma PrologueDecodes(writes: WriteSets, i: nat)
    requires i < 7
    ensures Decode(writes, PROLOGUE[i]) == SAVING[i]
  {
    if i == 0 {
      PushDecodes(writes, "rbp");
    } else if i == 1 {
      FrameMovDecodes(writes);
    } else if i == 2 {
      PushDecodes(writes, "rbx");
    } else if i == 3 {
      PushDecodes(writes, "r12");
    } else if i == 4 {
      PushDecodes(writes, "r13");
    } else if i == 5 {
      PushDecodes(writes, "r14");
    } else {
      PushDecodes(writes, "r15");
    }
  }

  lemma PrologueSavesAll(writes: WriteSets, body: seq<Insn>)
    requires HasPrologue(body)
    ensures Saves(Code(writes, body))
  {
    forall i | 0 <= i < 7
      ensures Code(writes, body)[i] == SAVING[i]
    {
      assert body[i] == PROLOGUE[i];
      PrologueDecodes(writes, i);
    }
  }

  lemma SavedNamesAreFull(operands: seq<string>)
    requires operands in SAVED_NAMES
    ensures |operands| == 1 && operands[0] in FULL_NAMES
  {
    assert operands in SAVED_LIST;
  }

  lemma PopDecodes(writes: WriteSets, insn: Insn)
    requires IsPop(insn) && insn.operands in SAVED_NAMES
    ensures Decode(writes, insn) == Pop(FULL_NAMES[insn.operands[0]])
  {
    SavedNamesAreFull(insn.operands);
  }

  lemma PoppedNames(body: seq<Insn>, i: nat, p: nat)
    requires i < |body| && PopsAllSix(body, i) && i - 6 <= p < i
    ensures IsPop(body[p]) && body[p].operands in SAVED_NAMES
  {
    var ops := Operands(body[i - 6..i]);
    assert ops[p - (i - 6)] == body[p].operands;
    assert body[p].operands in multiset(ops);
  }

  lemma PopsAreBefore(writes: WriteSets, body: seq<Insn>, i: nat)
    requires i < |body| && PopsAllSix(body, i)
    ensures PopsBefore(Code(writes, body), i)
  {
    forall p | i - 6 <= p < i
      ensures Code(writes, body)[p].Pop?
    {
      PoppedNames(body, i, p);
      PopDecodes(writes, body[p]);
    }
  }

  lemma RetIsRet(writes: WriteSets, insn: Insn)
    ensures Decode(writes, insn).Ret? <==> insn.mnemonic == "ret"
  {
  }

  lemma RestoringUnwinds(writes: WriteSets, body: seq<Insn>)
    requires EveryReturnRestores(body)
    ensures Unwinds(Code(writes, body))
  {
    forall i: nat | i < |body| && Code(writes, body)[i].Ret?
      ensures PopsBefore(Code(writes, body), i)
    {
      RetIsRet(writes, body[i]);
      PopsAreBefore(writes, body, i);
    }
  }

  // --- the audited binary -----------------------------------------------------------------------

  /** The audited functions of a binary, as the machine executes them. */
  ghost predicate Loaded(writes: WriteSets, b: Binary, prog: Program) {
    forall f :: f in prog ==> exists i: nat :: b.Audited(i) && b.functions[i].name == f && prog[f] == Code(writes, b.functions[i].body)
  }

  /** In the functions it takes for leaves, the audit sees every register written. */
  ghost predicate SeesLeafWrites(writes: WriteSets, b: Binary) {
    forall i: nat :: b.Audited(i) && !HasPrologue(b.functions[i].body) ==> SeesWrites(writes, b.functions[i].body)
  }

  ghost predicate Passes(b: Binary) {
    forall p :: !Offence(b, Verdicts(b), p)
  }

  lemma PassedBody(b: Binary, i: nat)
    requires Passes(b) && b.Audited(i)
    ensures Judge(b.functions[i].body) == Framed || Judge(b.functions[i].body) == Leaf
  {
    var v := Judge(b.functions[i].body);
    assert Verdicts(b)[i] == v;
    assert !Offence(b, Verdicts(b), Violates(b.functions[i].name, v));
  }

  lemma JudgedBodyIsDisciplined(writes: WriteSets, body: seq<Insn>)
    requires Judge(body) == Framed || (Judge(body) == Leaf && SeesWrites(writes, body))
    ensures (Saves(Code(writes, body)) && Unwinds(Code(writes, body))) || Writeless(Code(writes, body))
  {
    if HasPrologue(body) {
      PrologueSavesAll(writes, body);
      RestoringUnwinds(writes, body);
    } else {
      LeavesAreWriteless(writes, body);
    }
  }

  lemma PassedIsDisciplined(writes: WriteSets, b: Binary, prog: Program)
    requires Passes(b) && Loaded(writes, b, prog) && SeesLeafWrites(writes, b)
    ensures Disciplined(prog)
  {
    forall f | f in prog
      ensures (Saves(prog[f]) && Unwinds(prog[f])) || Writeless(prog[f])
    {
      var i: nat :| b.Audited(i) && b.functions[i].name == f && prog[f] == Code(writes, b.functions[i].body);
      PassedBody(b, i);
      JudgedBodyIsDisciplined(writes, b.functions[i].body);
    }
  }

  /** If the audit passes, sees what leaves write, and every framed return pops in reverse
      push order, every finite call tree returns with all six callee-saved registers
      unchanged, whatever framed functions write. */
  lemma CalleeSavedArePreserved(writes: WriteSets, b: Binary, prog: Program, a: Activation)
    requires Passes(b) && Loaded(writes, b, prog) && SeesLeafWrites(writes, b) && InOrder(prog) && Runs(prog, a)
    ensures a.Exit().regs == a.entry.regs
  {
    PassedIsDisciplined(writes, b, prog);
    DisciplinePreserves(prog, a);
  }

  lemma SavedNamesOnce(ops: seq<seq<string>>, j: nat, k: nat)
    requires multiset(ops) == SAVED_NAMES && j < k < |ops|
    ensures ops[j] != ops[k]
  {
    assert ops == ops[..k] + [ops[k]] + ops[k + 1..];
    assert ops[j] in ops[..k];
    assert ops[j] in multiset(ops[..k]);
    assert multiset(ops)[ops[k]] == 1;
  }

  lemma PoppedReg(writes: WriteSets, body: seq<Insn>, i: nat, j: nat)
    requires i < |body| && PopsAllSix(body, i) && j < 6
    ensures |body[i - 6 + j].operands| == 1 && body[i - 6 + j].operands[0] in FULL_NAMES
    ensures PopOrder(Code(writes, body), i)[j] == FULL_NAMES[body[i - 6 + j].operands[0]]
  {
    PoppedNames(body, i, i - 6 + j);
    SavedNamesAreFull(body[i - 6 + j].operands);
    PopDecodes(writes, body[i - 6 + j]);
    assert Code(writes, body)[i - 6 + j] == Pop(PopOrder(Code(writes, body), i)[j]);
  }

  lemma FullNamesDiffer(m: string, n: string)
    requires m in FULL_NAMES && n in FULL_NAMES && m != n
    ensures FULL_NAMES[m] != FULL_NAMES[n]
  {
  }

  lemma PopsDiffer(writes: WriteSets, body: seq<Insn>, i: nat, j: nat, k: nat)
    requires i < |body| && PopsAllSix(body, i) && j < k < 6
    ensures PopOrder(Code(writes, body), i)[j] != PopOrder(Code(writes, body), i)[k]
  {
    var ops := Operands(body[i - 6..i]);
    PoppedReg(writes, body, i, j);
    PoppedReg(writes, body, i, k);
    SavedNamesOnce(ops, j, k);
    assert ops[j] == body[i - 6 + j].operands && ops[k] == body[i - 6 + k].operands;
    assert ops[j] == [ops[j][0]] && ops[k] == [ops[k][0]];
    FullNamesDiffer(ops[j][0], ops[k][0]);
  }

  lemma SixDistinctCover(order: seq<Reg>)
    requires |order| == 6 && Distinct(order)
    ensures Covers(order)
  {
    var popped := Firsts(order, 6);
    DistinctSize(order, 6);
    forall r: Reg
      ensures r in popped
    {
      IsARegister(r);
      forall x | x in popped
        ensures x in ALL
      {
        IsARegister(x);
      }
      SubsetOfSameSize(popped, ALL);
    }
    assert forall r :: r in popped ==> r in order;
  }

  const ALL: set<Reg> := {Rbx, Rbp, R12, R13, R14, R15}

  lemma IsARegister(r: Reg)
    ensures r in ALL && |ALL| == 6
  {
    match r
    case Rbx => case Rbp => case R12 => case R13 => case R14 => case R15 =>
  }

  function Firsts(order: seq<Reg>, n: nat): set<Reg>
    requires n <= |order|
  {
    set k | 0 <= k < n :: order[k]
  }

  lemma {:induction false} DistinctSize(order: seq<Reg>, n: nat)
    requires n <= |order| && Distinct(order)
    ensures |Firsts(order, n)| == n
  {
    if n > 0 {
      DistinctSize(order, n - 1);
      assert Firsts(order, n) == Firsts(order, n - 1) + {order[n - 1]};
      assert order[n - 1] !in Firsts(order, n - 1);
    }
  }

  lemma SubsetOfSameSize(a: set<Reg>, b: set<Reg>)
    requires a <= b && |a| == |b|
    ensures a == b
  {
    assert b == a + (b - a);
  }

  /** Exactly when one activation of an audited framed function gives its caller the
      registers back: each popped register already held the value saved in its place.
      In particular every caller gets them back when the order is reversed. */
  lemma AuditedReturnKeepsIff(writes: WriteSets, prog: Program, a: Activation, body: seq<Insn>)
    requires Performs(prog, a) && prog[a.fn] == Code(writes, body) && Judge(body) == Framed
    ensures var i := a.steps[|a.steps| - 1].pc;
            && 6 <= i < |body|
            && var order := PopOrder(Code(writes, body), i);
               (a.Exit().regs == a.entry.regs <==>
                forall k :: 0 <= k < 6 ==> a.entry.regs.Get(order[k]) == a.entry.regs.Get(REVERSE_PUSH[k]))
  {
    var i := a.steps[|a.steps| - 1].pc;
    PrologueSavesAll(writes, body);
    RestoringUnwinds(writes, body);
    FramedKeepsIff(prog, a);
    RetIsRet(writes, body[i]);
    forall j, k | 0 <= j < k < 6
      ensures PopOrder(Code(writes, body), i)[j] != PopOrder(Code(writes, body), i)[k]
    {
      PopsDiffer(writes, body, i, j, k);
    }
    SixDistinctCover(PopOrder(Code(writes, body), i));
  }

  // --- writes the audit does not see ----------------------------------------------------------

  /** objdump's spelling of a 64-bit immediate load; its mnemonic is not on the audit's list. */
  const MOVABS: Insn := Insn("movabs", ["rbx", "0x1"])
  const UNSEEN_BODY: seq<Insn> := [MOVABS, Insn("ret", [])]

  lemma MovabsIsItsOwnBase()
    ensures Base("movabs") == "movabs"
  {
    var m, c := "movabs", "cmov";
    UpToAll(m, '.');
    assert m[0] == 'm' && c[0] == 'c';
  }

  lemma MovabsIsUnlisted()
    ensures "movabs" !in WRITE_FIRST_OPERAND
  {
    var m := "movabs";
    assert |m| == 6 && m[3] == 'a' && m[0] == 'm';
  }

  lemma MovabsWritesNone()
    ensures Written(MOVABS).None?
  {
    MovabsIsItsOwnBase();
    MovabsIsUnlisted();
  }

  lemma NoPrologueHere()
    ensures !HasPrologue(UNSEEN_BODY)
  {
    assert |UNSEEN_BODY| == 2 && |PROLOGUE| == 7;
  }

  lemma MovabsIsUnseen()
    ensures Judge(UNSEEN_BODY) == Leaf
  {
    NoPrologueHere();
    MovabsWritesNone();
    forall i | 0 <= i < |UNSEEN_BODY|
      ensures Written(UNSEEN_BODY[i]).None?
    {
      assert i == 0 || UNSEEN_BODY[i].operands == [];
    }
  }

  lemma MovabsDecodes(writes: WriteSets)
    ensures Code(writes, UNSEEN_BODY) == [Clobber(writes(MOVABS)), Ret]
  {
    RetDecodes(writes);
    assert MOVABS.mnemonic[0] == 'm' && MOVABS.mnemonic[3] == 'a';
    assert "push"[0] == 'p' && "pop"[0] == 'p' && "ret"[0] == 'r' && "call"[0] == 'c' && |"mov"| == 3;
    assert Decode(writes, MOVABS) == Clobber(writes(MOVABS));
  }

  const ZEROS: Regs := Regs(0, 0, 0, 0, 0, 0)

  const UNSEEN_RUN: Activation :=
    var after := Machine(ZEROS.(rbx := 1), 0, STACK);
    Activation("leaf", Machine(ZEROS, 0, STACK), [Step(0, after, None), Step(1, after, None)])

  lemma UnseenRuns(regs: set<Reg>)
    requires Rbx in regs
    ensures Runs(map["leaf" := [Clobber(regs), Ret]], UNSEEN_RUN)
  {
    var code := [Clobber(regs), Ret];
    assert StepOk(code, UNSEEN_RUN, 0);
    assert StepOk(code, UNSEEN_RUN, 1);
    assert FlowOk(code, UNSEEN_RUN, 0);
    assert !Saves(code);
  }

  /** Some run of the leaf returns with another rbx. */
  ghost predicate LosesRbx(code: seq<Op>) {
    exists a :: Runs(map["leaf" := code], a) && a.Exit().regs.rbx != a.entry.regs.rbx
  }

  lemma ClobberedLeaf(regs: set<Reg>)
    requires Rbx in regs
    ensures LosesRbx([Clobber(regs), Ret])
  {
    UnseenRuns(regs);
    assert UNSEEN_RUN.Exit().regs.rbx == 1 && UNSEEN_RUN.entry.regs.rbx == 0;
  }

  lemma NotSeen(writes: WriteSets, body: seq<Insn>, i: nat, r: Reg)
    requires Judge(body) == Leaf && i < |body| && r in writes(body[i])
    ensures !SeesWrites(writes, body)
  {
    SeenIffNone(writes, body[i]);
    assert !Seen(writes, body[i]);
  }

  /** The audit passes a leaf that loads rbx, and on any processor where that instruction
      writes rbx the leaf has a run that changes its caller's rbx. */
  lemma UnseenWritePassesTheAudit(writes: WriteSets)
    requires Rbx in writes(MOVABS)
    ensures Judge(UNSEEN_BODY) == Leaf && !SeesWrites(writes, UNSEEN_BODY)
    ensures LosesRbx(Code(writes, UNSEEN_BODY))
  {
    MovabsIsUnseen();
    MovabsDecodes(writes);
    ClobberedLeaf(writes(MOVABS));
    NotSeen(writes, UNSEEN_BODY, 0, Rbx);
  }

  // --- the order is not checked -------------------------------------------------------------------

  /** Pops in the order the registers were pushed, as the audit itself lists them. */
  const FORWARD_POPS: seq<Insn> :=
    [Insn("pop", ["rbp"]), Insn("pop", ["rbx"]), Insn("pop", ["r12"]), Insn("pop", ["r13"]), Insn("pop", ["r14"]), Insn("pop", ["r15"])]

  lemma AnyPopsPass(pops: seq<Insn>)
    requires |pops| == 6 && PopsBack(pops, 0, 6) && multiset(Operands(pops)) == SAVED_NAMES
    ensures Judge(PROLOGUE + pops + [Insn("ret", [])]) == Framed
  {
    var body := PROLOGUE + pops + [Insn("ret", [])];
    assert body[7..13] == pops;
    assert forall k :: 7 <= k < 13 ==> body[k] == pops[k - 7] && IsPop(body[k]);
    assert PopsAllSix(body, 13);
    assert forall i :: 0 <= i < 7 ==> body[i] == PROLOGUE[i] && PROLOGUE[i].mnemonic != "ret";
    assert HasPrologue(body);
    forall i | 0 <= i < |body| && body[i].mnemonic == "ret"
      ensures PopsAllSix(body, i)
    {
      assert i == 13;
    }
  }

  const FORWARD_BODY: seq<Insn> := PROLOGUE + FORWARD_POPS + [Insn("ret", [])]
  const FORWARD_ORDER: seq<Reg> := [Rbp, Rbx, R12, R13, R14, R15]
  const POPPING: seq<Op> := [Pop(Rbp), Pop(Rbx), Pop(R12), Pop(R13), Pop(R14), Pop(R15)]
  const FORWARD_CODE: seq<Op> := SAVING + POPPING + [Ret]

  lemma ForwardPopDecodes(writes: WriteSets, j: nat)
    requires j < 6
    ensures Decode(writes, FORWARD_POPS[j]) == POPPING[j]
  {
    assert FORWARD_POPS[j].operands == SAVED_LIST[j];
    PopDecodes(writes, FORWARD_POPS[j]);
  }

  lemma RetDecodes(writes: WriteSets)
    ensures Decode(writes, Insn("ret", [])) == Ret
  {
    RetIsRet(writes, Insn("ret", []));
  }

  lemma ForwardInsn(writes: WriteSets, i: nat)
    requires i < 14
    ensures Decode(writes, FORWARD_BODY[i]) == FORWARD_CODE[i]
  {
    if i < 7 {
      PrologueDecodes(writes, i);
    } else if i < 13 {
      ForwardPopDecodes(writes, i - 7);
    } else {
      RetDecodes(writes);
    }
  }

  lemma ForwardDecodes(writes: WriteSets)
    ensures Code(writes, FORWARD_BODY) == FORWARD_CODE
  {
    forall i | 0 <= i < 14
      ensures Code(writes, FORWARD_BODY)[i] == FORWARD_CODE[i]
    {
      ForwardInsn(writes, i);
    }
  }

  lemma ForwardPasses()
    ensures Judge(FORWARD_BODY) == Framed
  {
    assert Operands(FORWARD_POPS) == SAVED_LIST;
    AnyPopsPass(FORWARD_POPS);
  }

  lemma ForwardUnwinds()
    ensures Saves(FORWARD_CODE) && Unwinds(FORWARD_CODE) && PopOrder(FORWARD_CODE, 13) == FORWARD_ORDER
    ensures forall i: nat :: i < |FORWARD_CODE| && FORWARD_CODE[i].Ret? ==> i == 13
  {
    assert forall j :: 0 <= j < 6 ==> FORWARD_CODE[13 - 6 + j] == POPPING[j];
    assert forall j :: 0 <= j < 6 ==> POPPING[j] == Pop(FORWARD_ORDER[j]);
    assert forall j :: 0 <= j < 6 ==> PopOrder(FORWARD_CODE, 13)[j] == FORWARD_ORDER[j];
    assert forall i :: 0 <= i < 7 ==> FORWARD_CODE[i] == SAVING[i];
  }

  /** Every run of that body hands its caller r15 in rbp. */
  lemma ForwardRunsExchange(prog: Program, a: Activation)
    requires Performs(prog, a) && prog[a.fn] == FORWARD_CODE
    ensures a.Exit().regs.rbp == a.entry.regs.r15
  {
    ForwardUnwinds();
    FramedReturns(prog, a);
    var before :| a.Exit().regs == Restore(before, FORWARD_ORDER, Saved(a.entry.regs), 6);
    RestoreGets(before, FORWARD_ORDER, Saved(a.entry.regs), 6, 0);
  }

  // --- one such run: six registers holding 1 to 6, on a stack that already holds them ------

  const STACK: int -> int := x => (-x) / 8

  function RspAt(k: nat): int {
    if k <= 1 then -8 * k else if k <= 7 then 8 - 8 * k else 8 * k - 104
  }

  function RegsAt(k: nat): Regs {
    Regs(if k < 9 then 2 else 5, if k < 2 then 1 else if k < 8 then -8 else 6,
         if k < 10 then 3 else 4, if k < 11 then 4 else 3, if k < 12 then 5 else 2, if k < 13 then 6 else 1)
  }

  function MachineAt(k: nat): Machine {
    Machine(RegsAt(k), RspAt(k), STACK)
  }

  const FORWARD_RUN: Activation :=
    Activation("forward", MachineAt(0), seq(14, k requires 0 <= k < 14 => Step(k, MachineAt(k + 1), None)))

  lemma ForwardState(k: nat)
    requires k <= 14
    ensures FORWARD_RUN.State(k) == MachineAt(k)
  {
  }

  lemma ForwardEffect(k: nat)
    requires k < 13
    ensures Effect(FORWARD_CODE[k], MachineAt(k), MachineAt(k + 1))
  {
    if k < 7 {
      assert FORWARD_CODE[k] == SAVING[k];
    } else {
      assert FORWARD_CODE[k] == POPPING[k - 7];
    }
  }

  lemma ForwardStep(k: nat)
    requires k < 14
    ensures StepOk(FORWARD_CODE, FORWARD_RUN, k)
  {
    ForwardState(k);
    if k < 13 {
      ForwardEffect(k);
      assert !FORWARD_CODE[k].Call? && !FORWARD_CODE[k].Ret?;
    }
  }

  lemma ForwardSlots(k: nat)
    requires 7 <= k <= 14
    ensures Slots(FORWARD_RUN, k) == Slots(FORWARD_RUN, 7)
  {
    ForwardState(k);
    ForwardState(7);
  }

  lemma ForwardRuns(prog: Program)
    requires prog == map["forward" := FORWARD_CODE]
    ensures Runs(prog, FORWARD_RUN)
  {
    forall k | 0 <= k < 14
      ensures StepOk(FORWARD_CODE, FORWARD_RUN, k)
    {
      ForwardStep(k);
    }
    forall k | 7 <= k <= 14
      ensures Slots(FORWARD_RUN, k) == Slots(FORWARD_RUN, 7)
    {
      ForwardSlots(k);
    }
  }

  /** Every run hands its caller r15 in rbp. */
  ghost predicate HandsOverR15(code: seq<Op>) {
    forall prog, a :: Performs(prog, a) && prog[a.fn] == code ==> a.Exit().regs.rbp == a.entry.regs.r15
  }

  /** A legal run returns with all six registers exchanged. */
  ghost predicate ExchangesAll(code: seq<Op>) {
    exists prog, a ::
      && prog == map["forward" := code] && Runs(prog, a)
      && a.entry.regs == Regs(2, 1, 3, 4, 5, 6) && a.Exit().regs == Regs(5, 6, 4, 3, 2, 1)
  }

  lemma ForwardCodeHandsOver()
    ensures HandsOverR15(FORWARD_CODE)
  {
    forall prog, a | Performs(prog, a) && prog[a.fn] == FORWARD_CODE
      ensures a.Exit().regs.rbp == a.entry.regs.r15
    {
      ForwardRunsExchange(prog, a);
    }
  }

  lemma ForwardCodeExchanges()
    ensures ExchangesAll(FORWARD_CODE)
  {
    var prog := map["forward" := FORWARD_CODE];
    ForwardRuns(prog);
    ForwardState(14);
    assert Runs(prog, FORWARD_RUN);
  }

  /** The audit passes a body every run of which hands its caller r15 in rbp, and one
      of whose runs exchanges all six registers. */
  lemma ForwardPopsPassTheAudit(writes: WriteSets)
    ensures Judge(FORWARD_BODY) == Framed
    ensures HandsOverR15(Code(writes, FORWARD_BODY)) && ExchangesAll(Code(writes, FORWARD_BODY))
  {
    ForwardPasses();
    ForwardDecodes(writes);
    ForwardCodeHandsOver();
    ForwardCodeExchanges();
  }
}
