/** The machine on which the callee-saved convention of include/abi.inc is judged: an
    instruction is what it does to the six registers, the stack pointer and memory.
    Here every framed function is shown to return what its own pops load. */
module AbiMachine {
  import opened Common
  import opened AbiAudit

  datatype Regs = Regs(rbx: int, rbp: int, r12: int, r13: int, r14: int, r15: int) {
    function Get(r: Reg): int {
      match r
      case Rbx => rbx case Rbp => rbp case R12 => r12 case R13 => r13 case R14 => r14 case R15 => r15
    }
    function Put(r: Reg, v: int): Regs {
      match r
      case Rbx => this.(rbx := v) case Rbp => this.(rbp := v) case R12 => this.(r12 := v)
      case R13 => this.(r13 := v) case R14 => this.(r14 := v) case R15 => this.(r15 := v)
    }
  }

  datatype Machine = Machine(regs: Regs, rsp: int, mem: int -> int)

  // --- instructions ------------------------------------------------------------------------

  datatype Op = Push(r: Reg) | Pop(r: Reg) | FrameMov | Ret | Call | Jump | Clobber(regs: set<Reg>)

  /** One step of anything but a call. Memory and rsp are constrained only where the
      instruction fixes them. */
  ghost predicate Effect(op: Op, pre: Machine, post: Machine) {
    match op
    case Push(r) =>
      && post.regs == pre.regs && post.rsp == pre.rsp - 8
      && forall x :: post.mem(x) == if x == post.rsp then pre.regs.Get(r) else pre.mem(x)
    case Pop(r) =>
      && post.regs == pre.regs.Put(r, pre.mem(pre.rsp)) && post.rsp == pre.rsp + 8
      && forall x :: post.mem(x) == pre.mem(x)
    case FrameMov =>
      && post.regs == pre.regs.Put(Rbp, pre.rsp) && post.rsp == pre.rsp
      && forall x :: post.mem(x) == pre.mem(x)
    case Clobber(regs) => forall r :: r !in regs ==> post.regs.Get(r) == pre.regs.Get(r)
    case _ => post.regs == pre.regs
  }

  // --- executions ------------------------------------------------------------------------------

  /** One activation of a function: the machine it was entered in, and its steps, each
      with the program counter it executed and the machine it left. A call step holds
      the callee's own activation, unless the callee is outside the program (compiled
      C), which is taken to preserve the registers. */
  datatype Activation = Activation(fn: string, entry: Machine, steps: seq<Step>) {
    function State(k: nat): Machine
      requires k <= |steps|
    {
      if k == 0 then entry else steps[k - 1].post
    }
    function Exit(): Machine {
      if steps == [] then entry else steps[|steps| - 1].post
    }
  }

  datatype Step = Step(pc: nat, post: Machine, callee: Option<Activation>)

  type Program = map<string, seq<Op>>

  /** Past the first pop of a return sequence. */
  ghost predicate InsideEpilogue(code: seq<Op>, p: nat) {
    exists i: nat :: i < |code| && code[i].Ret? && i - 6 < p <= i
  }

  ghost predicate StepOk(code: seq<Op>, a: Activation, k: nat)
    requires k < |a.steps|
  {
    var s := a.steps[k];
    && s.pc < |code|
    && match code[s.pc]
       case Call =>
         if s.callee.None? then s.post.regs == a.State(k).regs
         else s.callee.value.entry.regs == a.State(k).regs && s.post.regs == s.callee.value.Exit().regs
       case Ret => k == |a.steps| - 1 && s.post.regs == a.State(k).regs && a.State(k).rsp == a.entry.rsp
       case op => Effect(op, a.State(k), s.post)
  }

  /** Control falls through, or jumps: anywhere in a leaf, and in a framed function
      anywhere but past the first pop of an epilogue. */
  ghost predicate FlowOk(code: seq<Op>, a: Activation, k: nat)
    requires k + 1 < |a.steps|
  {
    var p, q := a.steps[k].pc, a.steps[k + 1].pc;
    q == p + 1 || (p < |code| && code[p].Jump? && (Saves(code) ==> !InsideEpilogue(code, q)))
  }

  /** Nothing overwrites the frame's six save slots once they have been filled. */
  ghost predicate SlotsIntact(a: Activation) {
    forall k :: 7 <= k <= |a.steps| ==> Slots(a, k) == Slots(a, 7)
  }

  /** The six words below the return address, lowest first. */
  function Slots(a: Activation, k: nat): seq<int>
    requires k <= |a.steps|
  {
    var m, e := a.State(k).mem, a.entry.rsp;
    [m(e - 48), m(e - 40), m(e - 32), m(e - 24), m(e - 16), m(e - 8)]
  }

  predicate EndsInRet(code: seq<Op>, a: Activation)
    requires a.steps != []
  {
    var p := a.steps[|a.steps| - 1].pc;
    p < |code| && code[p].Ret?
  }

  /** A complete execution: it starts at the first instruction, every step obeys the
      machine, and it ends in a `ret` with rsp back where the call left it. */
  ghost predicate Runs(prog: Program, a: Activation)
    decreases a
  {
    && Performs(prog, a)
    && (forall k :: 0 <= k < |a.steps| && a.steps[k].callee.Some? ==> Runs(prog, a.steps[k].callee.value))
  }

  /** The activation itself, whatever its callees do. */
  ghost predicate Performs(prog: Program, a: Activation) {
    && a.fn in prog && a.steps != [] && a.steps[0].pc == 0
    && (forall k :: 0 <= k < |a.steps| ==> StepOk(prog[a.fn], a, k))
    && (forall k :: 0 <= k < |a.steps| - 1 ==> FlowOk(prog[a.fn], a, k))
    && EndsInRet(prog[a.fn], a)
    && (Saves(prog[a.fn]) ==> SlotsIntact(a))
  }

  // --- leaves ------------------------------------------------------------------------------------

  predicate Writeless(code: seq<Op>) {
    forall i :: 0 <= i < |code| ==> (code[i].Clobber? ==> code[i].regs == {}) && !code[i].Pop? && !code[i].FrameMov?
  }

  lemma {:induction false} LeafKeeps(prog: Program, a: Activation, k: nat)
    requires Performs(prog, a) && Writeless(prog[a.fn]) && k <= |a.steps|
    requires CalleesKeep(a)
    ensures a.State(k).regs == a.entry.regs
  {
    if k > 0 {
      LeafKeeps(prog, a, k - 1);
      assert StepOk(prog[a.fn], a, k - 1);
      if prog[a.fn][a.steps[k - 1].pc].Clobber? {
        GetExtensional(a.State(k).regs, a.State(k - 1).regs);
      }
    }
  }

  ghost predicate CalleesKeep(a: Activation) {
    forall k :: 0 <= k < |a.steps| && a.steps[k].callee.Some? ==>
      a.steps[k].callee.value.Exit().regs == a.steps[k].callee.value.entry.regs
  }

  // --- framed functions ----------------------------------------------------------------------------

  const SAVING: seq<Op> := [Push(Rbp), FrameMov, Push(Rbx), Push(R12), Push(R13), Push(R14), Push(R15)]

  predicate Saves(code: seq<Op>) {
    SAVING <= code
  }

  /** An instruction that is neither a jump nor a return is followed by the next one. */
  lemma FallsThrough(prog: Program, a: Activation, k: nat)
    requires Performs(prog, a) && k < |a.steps| && a.steps[k].pc < |prog[a.fn]|
    requires !prog[a.fn][a.steps[k].pc].Jump? && !prog[a.fn][a.steps[k].pc].Ret?
    ensures k + 1 < |a.steps| && a.steps[k + 1].pc == a.steps[k].pc + 1
  {
    assert EndsInRet(prog[a.fn], a);
    assert k + 1 < |a.steps|;
    assert FlowOk(prog[a.fn], a, k);
  }

  /** The first seven steps are the prologue: nothing in it jumps. */
  lemma {:induction false} PrologueRuns(prog: Program, a: Activation, k: nat)
    requires Performs(prog, a) && Saves(prog[a.fn]) && k < 7
    ensures k < |a.steps| && a.steps[k].pc == k
  {
    if k > 0 {
      PrologueRuns(prog, a, k - 1);
      assert prog[a.fn][k - 1] == SAVING[k - 1];
      FallsThrough(prog, a, k - 1);
    }
  }

  lemma StepEffect(prog: Program, a: Activation, k: nat, op: Op)
    requires Performs(prog, a) && k < |a.steps| && a.steps[k].pc < |prog[a.fn]|
    requires op == prog[a.fn][a.steps[k].pc] && !op.Call? && !op.Ret?
    ensures Effect(op, a.State(k), a.State(k + 1))
  {
    assert StepOk(prog[a.fn], a, k);
  }

  function Saved(r: Regs): seq<int> {
    [r.r15, r.r14, r.r13, r.r12, r.rbx, r.rbp]
  }

  const PUSHED: seq<Reg> := [Rbp, Rbx, R12, R13, R14, R15]

  /** After `k` steps the first `n` registers have been pushed below the return address. */
  ghost predicate Frame(a: Activation, k: nat, n: nat)
    requires k <= |a.steps| && n <= 6
  {
    var m := a.State(k);
    && m.rsp == a.entry.rsp - 8 * n
    && (forall r :: r != Rbp || n == 0 ==> m.regs.Get(r) == a.entry.regs.Get(r))
    && (forall j :: 0 <= j < n ==> m.mem(a.entry.rsp - 8 * (j + 1)) == a.entry.regs.Get(PUSHED[j]))
  }

  lemma PushExtends(a: Activation, k: nat, n: nat)
    requires k < |a.steps| && n < 6 && Frame(a, k, n)
    requires Effect(Push(PUSHED[n]), a.State(k), a.State(k + 1))
    ensures Frame(a, k + 1, n + 1)
  {
  }

  lemma MovKeepsFrame(a: Activation, k: nat, n: nat)
    requires k < |a.steps| && 1 <= n <= 6 && Frame(a, k, n)
    requires Effect(FrameMov, a.State(k), a.State(k + 1))
    ensures Frame(a, k + 1, n)
  {
  }

  lemma PrologueStep(prog: Program, a: Activation, k: nat)
    requires Performs(prog, a) && Saves(prog[a.fn]) && k < 7
    ensures k < |a.steps| && a.State(k + 1) == a.steps[k].post
    ensures Effect(SAVING[k], a.State(k), a.State(k + 1))
  {
    assert prog[a.fn][k] == SAVING[k];
    PrologueRuns(prog, a, k);
    StepEffect(prog, a, k, SAVING[k]);
  }

  lemma {:induction false} PrologueFrames(prog: Program, a: Activation, k: nat)
    requires Performs(prog, a) && Saves(prog[a.fn]) && k <= 7
    ensures k <= |a.steps| && Frame(a, k, if k <= 1 then k else k - 1)
  {
    if k > 0 {
      PrologueFrames(prog, a, k - 1);
      PrologueStep(prog, a, k - 1);
      if k == 1 {
        PushExtends(a, 0, 0);
      } else if k == 2 {
        MovKeepsFrame(a, 1, 1);
      } else {
        PushExtends(a, k - 1, k - 2);
      }
    }
  }

  lemma PrologueSaves(prog: Program, a: Activation)
    requires Performs(prog, a) && Saves(prog[a.fn])
    ensures |a.steps| >= 7 && Slots(a, 7) == Saved(a.entry.regs)
  {
    PrologueFrames(prog, a, 7);
    var m, e := a.State(7).mem, a.entry.rsp;
    assert m(e - 8 * (0 + 1)) == a.entry.regs.Get(PUSHED[0]);
    assert m(e - 8 * (1 + 1)) == a.entry.regs.Get(PUSHED[1]);
    assert m(e - 8 * (2 + 1)) == a.entry.regs.Get(PUSHED[2]);
    assert m(e - 8 * (3 + 1)) == a.entry.regs.Get(PUSHED[3]);
    assert m(e - 8 * (4 + 1)) == a.entry.regs.Get(PUSHED[4]);
    assert m(e - 8 * (5 + 1)) == a.entry.regs.Get(PUSHED[5]);
  }

  // --- the return sequence -----------------------------------------------------------------------

  predicate PopsBefore(code: seq<Op>, i: nat) {
    6 <= i < |code| && forall p :: i - 6 <= p < i ==> code[p].Pop?
  }

  predicate Unwinds(code: seq<Op>) {
    forall i: nat :: i < |code| && code[i].Ret? ==> PopsBefore(code, i)
  }

  lemma FallsIntoEpilogue(code: seq<Op>, a: Activation, k: nat, i: nat)
    requires Saves(code) && k + 1 < |a.steps| && FlowOk(code, a, k)
    requires i < |code| && code[i].Ret? && i - 6 < a.steps[k + 1].pc <= i
    ensures a.steps[k].pc == a.steps[k + 1].pc - 1
  {
    assert InsideEpilogue(code, a.steps[k + 1].pc);
  }

  lemma ReturnsAt(prog: Program, a: Activation) returns (i: nat)
    requires Performs(prog, a) && Saves(prog[a.fn]) && Unwinds(prog[a.fn])
    ensures i == a.steps[|a.steps| - 1].pc < |prog[a.fn]| && prog[a.fn][i].Ret? && PopsBefore(prog[a.fn], i)
    ensures i >= 13
  {
    var code := prog[a.fn];
    i := a.steps[|a.steps| - 1].pc;
    assert forall p :: 0 <= p < 7 ==> code[p] == SAVING[p] && !SAVING[p].Pop? && !SAVING[p].Ret?;
    assert code[i - 6].Pop?;
  }

  ghost predicate BackFrom(a: Activation, i: nat, j: nat)
    requires a.steps != []
  {
    j < |a.steps| && j <= i && a.steps[|a.steps| - 1 - j].pc == i - j
  }

  /** The last seven steps are the six pops and the `ret`: no jump lands among them. */
  lemma {:induction false} ReturnSequence(prog: Program, a: Activation, i: nat, j: nat)
    requires Performs(prog, a) && Saves(prog[a.fn]) && i < |prog[a.fn]| && prog[a.fn][i].Ret?
    requires i == a.steps[|a.steps| - 1].pc && j <= 6 <= i
    ensures BackFrom(a, i, j)
  {
    if j > 0 {
      ReturnSequence(prog, a, i, j - 1);
      var k := |a.steps| - 1 - (j - 1);
      assert k != 0;
      assert FlowOk(prog[a.fn], a, k - 1);
      FallsIntoEpilogue(prog[a.fn], a, k - 1, i);
    }
  }

  /** The registers the return at `i` pops, in order. */
  function PopOrder(code: seq<Op>, i: nat): (order: seq<Reg>)
    requires 6 <= i < |code|
    ensures |order| == 6
    ensures forall j :: 0 <= j < 6 && code[i - 6 + j].Pop? ==> code[i - 6 + j] == Pop(order[j])
  {
    seq(6, j requires 0 <= j < 6 => var op := code[i - 6 + j]; if op.Pop? then op.r else Rbx)
  }

  /** Popping `n` words into `order`. */
  function Restore(regs: Regs, order: seq<Reg>, words: seq<int>, n: nat): Regs
    requires n <= |order| && n <= |words|
  {
    if n == 0 then regs else Restore(regs, order, words, n - 1).Put(order[n - 1], words[n - 1])
  }

  /** The state before the `j`-th pop of the return sequence. */
  function Popping(a: Activation, j: nat): Machine
    requires 7 <= |a.steps| && j <= 6
  {
    a.State(|a.steps| - 7 + j)
  }

  /** `a` is about to return through the `ret` at `i`. */
  ghost predicate ReturningAt(prog: Program, a: Activation, i: nat) {
    && Performs(prog, a) && Saves(prog[a.fn]) && 7 <= |a.steps|
    && i == a.steps[|a.steps| - 1].pc < |prog[a.fn]| && prog[a.fn][i].Ret? && PopsBefore(prog[a.fn], i)
  }

  lemma PopPc(prog: Program, a: Activation, i: nat, j: nat)
    requires ReturningAt(prog, a, i) && j < 6
    ensures 6 <= i < |prog[a.fn]| && PopsBefore(prog[a.fn], i) && a.steps[|a.steps| - 7 + j].pc == i - 6 + j
  {
    ReturnSequence(prog, a, i, 6 - j);
  }

  lemma PopStep(prog: Program, a: Activation, i: nat, j: nat)
    requires ReturningAt(prog, a, i) && j < 6
    ensures i >= 6 && Effect(Pop(PopOrder(prog[a.fn], i)[j]), Popping(a, j), Popping(a, j + 1))
  {
    PopPc(prog, a, i, j);
    assert prog[a.fn][i - 6 + j].Pop?;
    StepEffect(prog, a, |a.steps| - 7 + j, Pop(PopOrder(prog[a.fn], i)[j]));
  }

  /** rsp is at the save area when the pops begin, because it is back at the return
      address when they end. */
  lemma {:induction false} PoppingFrom(prog: Program, a: Activation, i: nat, j: nat)
    requires ReturningAt(prog, a, i) && j <= 6
    ensures Popping(a, j).rsp == a.entry.rsp - 48 + 8 * j
    decreases 6 - j
  {
    if j == 6 {
      assert StepOk(prog[a.fn], a, |a.steps| - 1);
    } else {
      PopStep(prog, a, i, j);
      PoppingFrom(prog, a, i, j + 1);
    }
  }

  lemma SlotsHold(prog: Program, a: Activation, k: nat)
    requires Performs(prog, a) && Saves(prog[a.fn]) && 7 <= k <= |a.steps|
    ensures Slots(a, k) == Saved(a.entry.regs)
  {
    PrologueSaves(prog, a);
    assert SlotsIntact(a);
  }

  lemma PopLoads(prog: Program, a: Activation, i: nat, j: nat)
    requires ReturningAt(prog, a, i) && 14 <= |a.steps| && j < 6
    ensures Popping(a, j + 1).regs == Popping(a, j).regs.Put(PopOrder(prog[a.fn], i)[j], Saved(a.entry.regs)[j])
  {
    var k := |a.steps| - 7 + j;
    PopStep(prog, a, i, j);
    PoppingFrom(prog, a, i, j);
    SlotsHold(prog, a, k);
    SlotAt(a, k, j);
  }

  lemma {:induction false} PopsRestore(prog: Program, a: Activation, i: nat, n: nat)
    requires ReturningAt(prog, a, i) && 14 <= |a.steps| && n <= 6
    ensures Popping(a, n).regs == Restore(Popping(a, 0).regs, PopOrder(prog[a.fn], i), Saved(a.entry.regs), n)
  {
    if n > 0 {
      PopsRestore(prog, a, i, n - 1);
      PopLoads(prog, a, i, n - 1);
    }
  }

  lemma SlotAt(a: Activation, k: nat, j: nat)
    requires k <= |a.steps| && j < 6
    ensures a.State(k).mem(a.entry.rsp - 48 + 8 * j) == Slots(a, k)[j]
  {
    if j == 0 {
    } else if j == 1 {
    } else if j == 2 {
    } else if j == 3 {
    } else if j == 4 {
    } else {
    }
  }

  lemma LongEnough(prog: Program, a: Activation, i: nat)
    requires Performs(prog, a) && Saves(prog[a.fn]) && 13 <= i < |prog[a.fn]| && prog[a.fn][i].Ret?
    requires i == a.steps[|a.steps| - 1].pc
    ensures |a.steps| >= 14
  {
    ReturnSequence(prog, a, i, 6);
    var k := |a.steps| - 7;
    if k < 7 {
      PrologueRuns(prog, a, k);
    }
  }

  /** Whatever happened in between, a framed function returns with its registers loaded
      from the saved values in the order its own return sequence pops them. */
  lemma FramedReturns(prog: Program, a: Activation)
    requires Performs(prog, a) && Saves(prog[a.fn]) && Unwinds(prog[a.fn])
    ensures var i := a.steps[|a.steps| - 1].pc;
            && 6 <= i < |prog[a.fn]| && prog[a.fn][i].Ret?
            && exists before :: a.Exit().regs == Restore(before, PopOrder(prog[a.fn], i), Saved(a.entry.regs), 6)
  {
    var i := ReturnsAt(prog, a);
    LongEnough(prog, a, i);
    PopsRestore(prog, a, i, 6);
    assert StepOk(prog[a.fn], a, |a.steps| - 1);
    assert a.Exit().regs == Popping(a, 6).regs;
  }

  // --- the order of the pops ----------------------------------------------------------------------

  const REVERSE_PUSH: seq<Reg> := [R15, R14, R13, R12, Rbx, Rbp]

  ghost predicate Distinct(order: seq<Reg>) {
    forall i, j :: 0 <= i < j < |order| ==> order[i] != order[j]
  }

  lemma {:induction false} RestoreGets(regs: Regs, order: seq<Reg>, words: seq<int>, n: nat, k: nat)
    requires k < n <= |order| && n <= |words| && Distinct(order)
    ensures Restore(regs, order, words, n).Get(order[k]) == words[k]
  {
    if k < n - 1 {
      RestoreGets(regs, order, words, n - 1, k);
      assert order[k] != order[n - 1];
    }
  }

  lemma ReverseRestores(before: Regs, r: Regs)
    ensures Restore(before, REVERSE_PUSH, Saved(r), 6) == r
  {
    RestoreGets(before, REVERSE_PUSH, Saved(r), 6, 0);
    RestoreGets(before, REVERSE_PUSH, Saved(r), 6, 1);
    RestoreGets(before, REVERSE_PUSH, Saved(r), 6, 2);
    RestoreGets(before, REVERSE_PUSH, Saved(r), 6, 3);
    RestoreGets(before, REVERSE_PUSH, Saved(r), 6, 4);
    RestoreGets(before, REVERSE_PUSH, Saved(r), 6, 5);
  }

  /** The audit compares the popped registers as a set. A return sequence that pops all
      six restores every caller's registers exactly when it pops them in the reverse of
      the order they were pushed. */
  lemma RestoresExactlyInReverseOrder(order: seq<Reg>)
    requires |order| == 6 && Distinct(order)
    ensures (forall before, r :: Restore(before, order, Saved(r), 6) == r) <==> order == REVERSE_PUSH
  {
    if order == REVERSE_PUSH {
      forall before, r
        ensures Restore(before, order, Saved(r), 6) == r
      {
        ReverseRestores(before, r);
      }
    } else {
      var k: nat :| k < 6 && order[k] != REVERSE_PUSH[k];
      var r := Regs(5, 6, 4, 3, 2, 1);
      RestoreGets(r, order, Saved(r), 6, k);
      assert Saved(r)[k] == k + 1;
      assert r.Get(REVERSE_PUSH[k]) == k + 1;
      assert r.Get(order[k]) != k + 1;
      assert Restore(r, order, Saved(r), 6) != r;
    }
  }

  lemma GetExtensional(r: Regs, t: Regs)
    requires forall x :: r.Get(x) == t.Get(x)
    ensures r == t
  {
    assert r.Get(Rbx) == t.Get(Rbx) && r.Get(Rbp) == t.Get(Rbp) && r.Get(R12) == t.Get(R12);
    assert r.Get(R13) == t.Get(R13) && r.Get(R14) == t.Get(R14) && r.Get(R15) == t.Get(R15);
  }

  ghost predicate Covers(order: seq<Reg>) {
    |order| == 6 && Distinct(order) && forall r :: r in order
  }

  lemma SavedAt(r: Regs, k: nat)
    requires k < 6
    ensures Saved(r)[k] == r.Get(REVERSE_PUSH[k])
  {
  }

  /** Run by run: a return through six distinct pops gives the caller its registers back
      exactly when each popped register already held the value saved in its place. */
  lemma RestoresThisCaller(before: Regs, order: seq<Reg>, r: Regs)
    requires Covers(order)
    ensures Restore(before, order, Saved(r), 6) == r <==> forall k :: 0 <= k < 6 ==> r.Get(order[k]) == r.Get(REVERSE_PUSH[k])
  {
    var out := Restore(before, order, Saved(r), 6);
    forall k | 0 <= k < 6
      ensures out.Get(order[k]) == r.Get(REVERSE_PUSH[k])
    {
      RestoreGets(before, order, Saved(r), 6, k);
      SavedAt(r, k);
    }
    if forall k :: 0 <= k < 6 ==> r.Get(order[k]) == r.Get(REVERSE_PUSH[k]) {
      forall x
        ensures out.Get(x) == r.Get(x)
      {
        assert x in order;
        var k :| 0 <= k < |order| && order[k] == x;
      }
      GetExtensional(out, r);
    }
  }

  /** The exact condition under which one framed activation keeps its caller's registers. */
  lemma FramedKeepsIff(prog: Program, a: Activation)
    requires Performs(prog, a) && Saves(prog[a.fn]) && Unwinds(prog[a.fn])
    ensures var i := a.steps[|a.steps| - 1].pc;
            && 6 <= i < |prog[a.fn]|
            && var order := PopOrder(prog[a.fn], i);
               Covers(order) ==>
                 (a.Exit().regs == a.entry.regs <==>
                  forall k :: 0 <= k < 6 ==> a.entry.regs.Get(order[k]) == a.entry.regs.Get(REVERSE_PUSH[k]))
  {
    FramedReturns(prog, a);
    var order := PopOrder(prog[a.fn], a.steps[|a.steps| - 1].pc);
    var before :| a.Exit().regs == Restore(before, order, Saved(a.entry.regs), 6);
    if Covers(order) {
      RestoresThisCaller(before, order, a.entry.regs);
    }
  }

  // --- the whole program ---------------------------------------------------------------------------

  /** Every framed return pops in reverse push order, as AF_LEAVE does. */
  ghost predicate InOrder(prog: Program) {
    forall f, i: nat :: f in prog && Saves(prog[f]) && PopsBefore(prog[f], i) && prog[f][i].Ret? ==>
      PopOrder(prog[f], i) == REVERSE_PUSH
  }

  ghost predicate Disciplined(prog: Program) {
    forall f :: f in prog ==> (Saves(prog[f]) && Unwinds(prog[f])) || Writeless(prog[f])
  }

  /** Every finite call tree of disciplined functions, with arbitrary jumps outside the
      return sequences, returns with all six callee-saved registers unchanged. */
  lemma {:induction false} DisciplinePreserves(prog: Program, a: Activation)
    requires Disciplined(prog) && InOrder(prog) && Runs(prog, a)
    ensures a.Exit().regs == a.entry.regs
    decreases a
  {
    forall k | 0 <= k < |a.steps| && a.steps[k].callee.Some?
      ensures a.steps[k].callee.value.Exit().regs == a.steps[k].callee.value.entry.regs
    {
      DisciplinePreserves(prog, a.steps[k].callee.value);
    }
    if Saves(prog[a.fn]) && Unwinds(prog[a.fn]) {
      FramedReturns(prog, a);
      var i := a.steps[|a.steps| - 1].pc;
      var before :| a.Exit().regs == Restore(before, PopOrder(prog[a.fn], i), Saved(a.entry.regs), 6);
      ReverseRestores(before, a.entry.regs);
    } else {
      LeafKeeps(prog, a, |a.steps|);
    }
  }
}
