/** scripts/abi_audit.py: the static callee-saved register audit. An instruction is a
    mnemonic and its operands as objdump prints them, split at the commas. */
module AbiAudit {
  import opened Common

  datatype Reg = Rbx | Rbp | R12 | R13 | R14 | R15

  datatype Insn = Insn(mnemonic: string, operands: seq<string>)

  // --- which register an instruction writes ---------------------------------------------

  const REGISTERS: map<string, Reg> := map[
    "rbx" := Rbx, "ebx" := Rbx, "bx" := Rbx, "bl" := Rbx, "bh" := Rbx,
    "rbp" := Rbp, "ebp" := Rbp, "bp" := Rbp, "bpl" := Rbp,
    "r12" := R12, "r12d" := R12, "r12w" := R12, "r12b" := R12,
    "r13" := R13, "r13d" := R13, "r13w" := R13, "r13b" := R13,
    "r14" := R14, "r14d" := R14, "r14w" := R14, "r14b" := R14,
    "r15" := R15, "r15d" := R15, "r15w" := R15, "r15b" := R15]

  const WRITE_FIRST_OPERAND: set<string> := {
    "mov", "movzx", "movsx", "movsxd", "lea", "add", "sub", "and", "or", "xor",
    "adc", "sbb", "inc", "dec", "neg", "not", "shl", "shr", "sar", "rol", "ror",
    "imul", "xchg", "sete", "setne", "seta", "setae", "setb", "setbe", "setg",
    "setge", "setl", "setle", "setz", "setnz", "cmov", "bswap", "pop"}

  function UpTo(s: string, c: char): string {
    if s == "" || s[0] == c then "" else [s[0]] + UpTo(s[1..], c)
  }

  function Base(mnemonic: string): string {
    var base := UpTo(mnemonic, '.');
    if "cmov" <= base then "cmov" else base
  }

  /** `s.lstrip("%")`. */
  function WithoutPercents(s: string): string {
    if s != "" && s[0] == '%' then WithoutPercents(s[1..]) else s
  }

  function Canonical(operand: string): Option<Reg> {
    var name := WithoutPercents(operand);
    if name in REGISTERS then Some(REGISTERS[name]) else None
  }

  function Written(insn: Insn): Option<Reg> {
    if Base(insn.mnemonic) !in WRITE_FIRST_OPERAND || insn.operands == [] || '[' in insn.operands[0] then None
    else Canonical(insn.operands[0])
  }

  /** `written_callee_saved`. */
  method WrittenCalleeSaved(body: seq<Insn>, skip: nat) returns (written: set<Reg>)
    requires skip <= |body|
    ensures forall r :: r in written <==> exists i :: skip <= i < |body| && Written(body[i]) == Some(r)
  {
    written := {};
    for i := skip to |body|
      invariant forall r :: r in written <==> exists k :: skip <= k < i && Written(body[k]) == Some(r)
    {
      match Written(body[i])
      case Some(r) => written := written + {r};
      case None =>
    }
  }

  // --- prologue and epilogue --------------------------------------------------------------

  const PROLOGUE: seq<Insn> := [
    Insn("push", ["rbp"]), Insn("mov", ["rbp", "rsp"]), Insn("push", ["rbx"]), Insn("push", ["r12"]),
    Insn("push", ["r13"]), Insn("push", ["r14"]), Insn("push", ["r15"])]

  predicate HasPrologue(body: seq<Insn>) {
    PROLOGUE <= body
  }

  /** `has_expected_prologue`. */
  method HasExpectedPrologue(body: seq<Insn>) returns (yes: bool)
    ensures yes == HasPrologue(body)
  {
    if |body| < |PROLOGUE| {
      return false;
    }
    for i := 0 to |PROLOGUE|
      invariant forall k :: 0 <= k < i ==> body[k] == PROLOGUE[k]
    {
      if body[i] != PROLOGUE[i] {
        return false;
      }
    }
    return true;
  }

  const SAVED_LIST: seq<seq<string>> := [["rbp"], ["rbx"], ["r12"], ["r13"], ["r14"], ["r15"]]
  const SAVED_NAMES: multiset<seq<string>> := multiset(SAVED_LIST)

  function Operands(body: seq<Insn>): (ops: seq<seq<string>>)
    ensures |ops| == |body| && forall i :: 0 <= i < |body| ==> ops[i] == body[i].operands
  {
    seq(|body|, i requires 0 <= i < |body| => body[i].operands)
  }

  predicate IsPop(insn: Insn) {
    insn.mnemonic == "pop"
  }

  /** The six instructions before `i` are pops of exactly `expected`, in any order. */
  predicate PopsExactly(body: seq<Insn>, i: nat, expected: multiset<seq<string>>)
    requires i < |body|
  {
    && 6 <= i
    && PopsBack(body, i - 6, i)
    && multiset(Operands(body[i - 6..i])) == expected
  }

  predicate PopsBack(body: seq<Insn>, from: nat, to: nat)
    requires from <= to <= |body|
  {
    forall k :: from <= k < to ==> IsPop(body[k])
  }

  predicate PopsAllSix(body: seq<Insn>, i: nat)
    requires i < |body|
  {
    PopsExactly(body, i, SAVED_NAMES)
  }

  predicate EveryReturnRestores(body: seq<Insn>) {
    forall i :: 0 <= i < |body| && body[i].mnemonic == "ret" ==> PopsAllSix(body, i)
  }

  lemma OperandsGrow(body: seq<Insn>, from: nat, to: nat)
    requires 0 < from <= to <= |body|
    ensures multiset(Operands(body[from - 1..to])) == multiset(Operands(body[from..to])) + multiset{body[from - 1].operands}
  {
    assert Operands(body[from - 1..to]) == [body[from - 1].operands] + Operands(body[from..to]);
  }

  /** Where the walk stops, six pops have been collected exactly when there were six. */
  lemma WalkDone(body: seq<Insn>, index: nat, cursor: nat, pops: seq<seq<string>>, expected: multiset<seq<string>>)
    requires cursor <= index < |body| && |expected| == 6 && |pops| == index - cursor <= 6
    requires PopsBack(body, cursor, index) && multiset(pops) == multiset(Operands(body[cursor..index]))
    requires |pops| == 6 || cursor == 0 || !IsPop(body[cursor - 1])
    ensures multiset(pops) == expected <==> PopsExactly(body, index, expected)
  {
    assert |multiset(pops)| == |pops|;
  }

  /** The walk backwards from a `ret` in `epilogue_is_complete`; comparing the sorted
      operand lists is comparing them as multisets. */
  method WalkBack(body: seq<Insn>, index: nat, expected: multiset<seq<string>>) returns (complete: bool)
    requires index < |body| && |expected| == 6
    ensures complete == PopsExactly(body, index, expected)
  {
    var pops: seq<seq<string>> := [];
    var cursor := index;   // one past the source's cursor
    while cursor > 0 && |pops| < 6 && IsPop(body[cursor - 1])
      invariant 0 <= cursor <= index && |pops| == index - cursor <= 6
      invariant PopsBack(body, cursor, index)
      invariant multiset(pops) == multiset(Operands(body[cursor..index]))
    {
      OperandsGrow(body, cursor, index);
      pops := pops + [body[cursor - 1].operands];
      cursor := cursor - 1;
    }
    WalkDone(body, index, cursor, pops, expected);
    complete := multiset(pops) == expected;
  }

  /** `epilogue_is_complete`. */
  method EpilogueIsComplete(body: seq<Insn>) returns (yes: bool)
    ensures yes == EveryReturnRestores(body)
  {
    for i := 0 to |body|
      invariant forall k :: 0 <= k < i && body[k].mnemonic == "ret" ==> PopsAllSix(body, k)
    {
      if body[i].mnemonic == "ret" {
        var complete := WalkBack(body, i, SAVED_NAMES);
        if !complete {
          return false;
        }
      }
    }
    return true;
  }

  // --- the audit ----------------------------------------------------------------------------

  predicate WritesNone(body: seq<Insn>) {
    forall i :: 0 <= i < |body| ==> Written(body[i]).None?
  }

  datatype Function = Function(name: string, body: seq<Insn>)

  datatype Verdict = Framed | Leaf | Unrestored | Unframed

  const FRAMES: set<Verdict> := {Framed, Unrestored}
  const LEAVES: set<Verdict> := {Leaf}

  function Judge(body: seq<Insn>): Verdict {
    if HasPrologue(body) then (if EveryReturnRestores(body) then Framed else Unrestored)
    else if WritesNone(body) then Leaf else Unframed
  }

  method AuditFunction(body: seq<Insn>) returns (v: Verdict)
    ensures v == Judge(body)
    ensures v == Framed <==> HasPrologue(body) && forall i :: 0 <= i < |body| && body[i].mnemonic == "ret" ==> PopsAllSix(body, i)
    ensures v == Unrestored <==> HasPrologue(body) && exists i :: 0 <= i < |body| && body[i].mnemonic == "ret" && !PopsAllSix(body, i)
    ensures v == Leaf <==> !HasPrologue(body) && forall i :: 0 <= i < |body| ==> Written(body[i]).None?
    ensures v == Unframed <==> !HasPrologue(body) && exists i :: 0 <= i < |body| && Written(body[i]).Some?
  {
    var framed := HasExpectedPrologue(body);
    if framed {
      var complete := EpilogueIsComplete(body);
      return if complete then Framed else Unrestored;
    }
    var written := WrittenCalleeSaved(body, 0);
    assert forall i :: 0 <= i < |body| && Written(body[i]).Some? ==> Written(body[i]).value in written;
    if written != {} {
      var r :| r in written;
      return Unframed;
    }
    return Leaf;
  }

  datatype Problem = Violates(name: string, how: Verdict) | Unlinked(name: string) | Uncovered(name: string)

  datatype Report = Passed(framed: nat, leaves: nat) | Violations(problems: set<Problem>)

  /** What the audit reads out of a binary: its functions by name, the symbols to
      audit, the assembly exports, and every symbol that reached the link. */
  datatype Binary = Binary(functions: seq<Function>, auditSet: set<string>, exports: set<string>, defined: set<string>) {
    predicate Valid() {
      forall i, j :: 0 <= i < j < |functions| ==> functions[i].name != functions[j].name
    }
    /** The `i`-th function is one the audit looks at. */
    predicate Audited(i: nat) {
      i < |functions| && functions[i].name in auditSet && functions[i].body != []
    }
  }

  function Verdicts(b: Binary): (vs: seq<Verdict>)
    ensures |vs| == |b.functions| && forall i :: 0 <= i < |vs| ==> vs[i] == Judge(b.functions[i].body)
  {
    seq(|b.functions|, i requires 0 <= i < |b.functions| => Judge(b.functions[i].body))
  }

  /** A rule the binary breaks, given the verdict on each function. */
  ghost predicate Offence(b: Binary, vs: seq<Verdict>, p: Problem)
    requires |vs| == |b.functions|
  {
    match p
    case Violates(_, _) => Violated(b, vs, p, |vs|)
    case Unlinked(name) => name in b.exports - b.defined
    case Uncovered(name) => name in b.auditSet && !Seen(b, name, |vs|)
  }

  ghost predicate Seen(b: Binary, name: string, n: nat) {
    exists k: nat :: k < n && b.Audited(k) && b.functions[k].name == name
  }

  ghost predicate Violated(b: Binary, vs: seq<Verdict>, p: Problem, n: nat)
    requires n <= |vs| == |b.functions|
  {
    && p.Violates? && (p.how == Unrestored || p.how == Unframed)
    && exists i: nat :: i < n && b.Audited(i) && b.functions[i].name == p.name && vs[i] == p.how
  }

  /** How many of the first `n` functions are looked at and judged one of `kinds`. */
  function Count(b: Binary, vs: seq<Verdict>, kinds: set<Verdict>, n: nat): nat
    requires n <= |vs| == |b.functions|
  {
    if n == 0 then 0 else Count(b, vs, kinds, n - 1) + if b.Audited(n - 1) && vs[n - 1] in kinds then 1 else 0
  }

  ghost function Below(n: nat, p: nat -> bool): set<nat> {
    set i: nat | i < n && p(i)
  }

  lemma BelowStep(n: nat, p: nat -> bool)
    ensures |Below(n + 1, p)| == |Below(n, p)| + if p(n) then 1 else 0
  {
    if p(n) {
      assert Below(n + 1, p) == Below(n, p) + {n};
    } else {
      assert Below(n + 1, p) == Below(n, p);
    }
  }

  lemma {:induction false} CountIsSize(b: Binary, vs: seq<Verdict>, kinds: set<Verdict>, n: nat, p: nat -> bool)
    requires n <= |vs| == |b.functions|
    requires forall i: nat :: i < n ==> (p(i) <==> b.Audited(i) && vs[i] in kinds)
    ensures Count(b, vs, kinds, n) == |Below(n, p)|
  {
    if n > 0 {
      CountIsSize(b, vs, kinds, n - 1, p);
      BelowStep(n - 1, p);
    } else {
      assert Below(n, p) == {};
    }
  }

  const EVERY: set<Verdict> := {Framed, Leaf, Unrestored, Unframed}

  /** Of functions without a violation, each is counted once, framed or leaf. */
  lemma {:induction false} CountSplits(b: Binary, vs: seq<Verdict>, n: nat)
    requires n <= |vs| == |b.functions| && forall i: nat :: i < n && b.Audited(i) ==> vs[i] != Unframed
    ensures Count(b, vs, EVERY, n) == Count(b, vs, FRAMES, n) + Count(b, vs, LEAVES, n)
  {
    if n > 0 {
      CountSplits(b, vs, n - 1);
    }
  }

  /** The names of the functions looked at, and the problems found, among the first `n`. */
  function Names(b: Binary, n: nat): set<string>
    requires n <= |b.functions|
  {
    if n == 0 then {} else Names(b, n - 1) + if b.Audited(n - 1) then {b.functions[n - 1].name} else {}
  }

  function Found(b: Binary, vs: seq<Verdict>, n: nat): set<Problem>
    requires n <= |vs| == |b.functions|
  {
    if n == 0 then {}
    else Found(b, vs, n - 1) +
         if b.Audited(n - 1) && (vs[n - 1] == Unrestored || vs[n - 1] == Unframed)
         then {Violates(b.functions[n - 1].name, vs[n - 1])} else {}
  }

  lemma {:induction false} NamesAreSeen(b: Binary, n: nat, name: string)
    requires n <= |b.functions|
    ensures name in Names(b, n) <==> Seen(b, name, n)
  {
    if n > 0 {
      NamesAreSeen(b, n - 1, name);
    }
  }

  lemma {:induction false} FoundIsViolated(b: Binary, vs: seq<Verdict>, n: nat, p: Problem)
    requires n <= |vs| == |b.functions|
    ensures p in Found(b, vs, n) <==> Violated(b, vs, p, n)
  {
    if n > 0 {
      FoundIsViolated(b, vs, n - 1, p);
    }
  }

  lemma {:induction false} NamesCount(b: Binary, vs: seq<Verdict>, n: nat)
    requires b.Valid() && n <= |vs| == |b.functions|
    ensures |Names(b, n)| == Count(b, vs, EVERY, n)
  {
    if n > 0 {
      NamesCount(b, vs, n - 1);
      NamesAreSeen(b, n - 1, b.functions[n - 1].name);
      assert !Seen(b, b.functions[n - 1].name, n - 1);
      var v := vs[n - 1];
      assert v.Framed? || v.Leaf? || v.Unrestored? || v.Unframed?;
      assert Names(b, n - 1) + {} == Names(b, n - 1);
    }
  }

  /** The counting loop of `audit`. */
  method Tally(b: Binary, vs: seq<Verdict>) returns (problems: set<Problem>, framed: nat, leaves: nat, seen: set<string>)
    requires b.Valid() && |vs| == |b.functions|
    ensures forall p :: p in problems <==> Violated(b, vs, p, |vs|)
    ensures forall name :: name in seen <==> Seen(b, name, |vs|)
    ensures framed == Count(b, vs, FRAMES, |vs|) && leaves == Count(b, vs, LEAVES, |vs|)
    ensures problems == {} ==> framed + leaves == |seen|
  {
    problems, framed, leaves, seen := {}, 0, 0, {};
    for i := 0 to |b.functions|
      invariant seen == Names(b, i) && problems == Found(b, vs, i)
      invariant framed == Count(b, vs, FRAMES, i) && leaves == Count(b, vs, LEAVES, i)
    {
      var f := b.functions[i];
      if f.name in b.auditSet && f.body != [] {
        seen := seen + {f.name};
        if vs[i] == Unrestored || vs[i] == Unframed {
          problems := problems + {Violates(f.name, vs[i])};
        }
        if vs[i] == Framed || vs[i] == Unrestored {
          framed := framed + 1;
        } else if vs[i] == Leaf {
          leaves := leaves + 1;
        }
      }
    }
    TallyMeans(b, vs);
  }

  /** What the loop has collected in the end. */
  lemma TallyMeans(b: Binary, vs: seq<Verdict>)
    requires b.Valid() && |vs| == |b.functions|
    ensures forall p :: p in Found(b, vs, |vs|) <==> Violated(b, vs, p, |vs|)
    ensures forall name :: name in Names(b, |vs|) <==> Seen(b, name, |vs|)
    ensures Found(b, vs, |vs|) == {} ==> Count(b, vs, FRAMES, |vs|) + Count(b, vs, LEAVES, |vs|) == |Names(b, |vs|)|
  {
    forall p
      ensures p in Found(b, vs, |vs|) <==> Violated(b, vs, p, |vs|)
    {
      FoundIsViolated(b, vs, |vs|, p);
    }
    forall name
      ensures name in Names(b, |vs|) <==> Seen(b, name, |vs|)
    {
      NamesAreSeen(b, |vs|, name);
    }
    if Found(b, vs, |vs|) == {} {
      NoneUnframed(b, vs);
      CountSplits(b, vs, |vs|);
      NamesCount(b, vs, |vs|);
    }
  }

  lemma NoneUnframed(b: Binary, vs: seq<Verdict>)
    requires |vs| == |b.functions| && forall p :: !Violated(b, vs, p, |vs|)
    ensures forall i: nat :: i < |vs| && b.Audited(i) ==> vs[i] != Unframed
  {
    forall i: nat | i < |vs| && b.Audited(i)
      ensures vs[i] != Unframed
    {
      assert !Violated(b, vs, Violates(b.functions[i].name, Unframed), |vs|);
    }
  }

  /** The audited functions that start with the prologue, and those that do not. */
  ghost function WithFrame(b: Binary): set<nat> {
    Below(|b.functions|, (i: nat) => b.Audited(i) && HasPrologue(b.functions[i].body))
  }

  ghost function WithoutFrame(b: Binary): set<nat> {
    Below(|b.functions|, (i: nat) => b.Audited(i) && !HasPrologue(b.functions[i].body))
  }

  lemma CountsAreFrames(b: Binary)
    requires forall p :: !Offence(b, Verdicts(b), p)
    ensures Count(b, Verdicts(b), FRAMES, |b.functions|) == |WithFrame(b)|
    ensures Count(b, Verdicts(b), LEAVES, |b.functions|) == |WithoutFrame(b)|
  {
    var vs, n := Verdicts(b), |b.functions|;
    forall i: nat | i < n && b.Audited(i)
      ensures vs[i] in FRAMES <==> HasPrologue(b.functions[i].body)
      ensures vs[i] in LEAVES <==> !HasPrologue(b.functions[i].body)
    {
      assert vs[i] == Judge(b.functions[i].body);
      assert !Offence(b, vs, Violates(b.functions[i].name, vs[i]));
    }
    CountIsSize(b, vs, FRAMES, n, (i: nat) => b.Audited(i) && HasPrologue(b.functions[i].body));
    CountIsSize(b, vs, LEAVES, n, (i: nat) => b.Audited(i) && !HasPrologue(b.functions[i].body));
  }

  /** `audit`. It reports exactly the rules that are broken; when none is, every symbol
      of the audit set was counted once, as a framed function or as a leaf. */
  method Audit(b: Binary) returns (report: Report)
    requires b.Valid()
    ensures report.Passed? <==> forall p :: !Offence(b, Verdicts(b), p)
    ensures report.Violations? ==> forall p :: p in report.problems <==> Offence(b, Verdicts(b), p)
    ensures report.Passed? ==> report.framed + report.leaves == |b.auditSet|
    ensures report.Passed? ==> report.framed == |WithFrame(b)| && report.leaves == |WithoutFrame(b)|
  {
    var vs: seq<Verdict> := [];
    for i := 0 to |b.functions|
      invariant |vs| == i && vs == Verdicts(b)[..i]
    {
      var v := AuditFunction(b.functions[i].body);
      vs := vs + [v];
    }
    assert vs == Verdicts(b);
    report := Conclude(b, vs);
    if report.Passed? {
      CountsAreFrames(b);
    }
  }

  method Conclude(b: Binary, vs: seq<Verdict>) returns (report: Report)
    requires b.Valid() && |vs| == |b.functions|
    ensures report.Passed? <==> forall p :: !Offence(b, vs, p)
    ensures report.Violations? ==> forall p :: p in report.problems <==> Offence(b, vs, p)
    ensures report.Passed? ==> report.framed + report.leaves == |b.auditSet|
    ensures report.Passed? ==>
              report.framed == Count(b, vs, FRAMES, |vs|) && report.leaves == Count(b, vs, LEAVES, |vs|)
  {
    var violating, framed, leaves, seen := Tally(b, vs);
    assert seen <= b.auditSet;
    var unlinked := set name | name in b.exports - b.defined :: Unlinked(name);
    var uncovered := set name | name in b.auditSet - seen :: Uncovered(name);
    var problems := violating + unlinked + uncovered;
    forall p
      ensures p in problems <==> Offence(b, vs, p)
    {
      match p
      case Violates(name, how) => assert p in problems <==> p in violating;
      case Unlinked(name) => assert p in problems <==> p in unlinked;
      case Uncovered(name) => assert p in problems <==> p in uncovered;
    }
    assert forall name :: name in b.auditSet - seen ==> Uncovered(name) in problems;
    if problems != {} {
      var p :| p in problems;
      assert Offence(b, vs, p);
      return Violations(problems);
    }
    ghost var missing := b.auditSet - seen;
    assert missing == {};
    assert b.auditSet == seen + missing;
    return Passed(framed, leaves);
  }
}
