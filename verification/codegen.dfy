/**
 * The code generator of codegen.c as functions: the instruction stream that
 * gen and gen_stmt print for a node, and the value of the label counter
 * afterwards.  Instructions are a datatype rather than text; the Generator
 * class is proved to append exactly these instructions.
 */
module Codegen {
  import opened Syntax

  datatype Reg = RAX | RDI | RSI | RDX | RCX | R8 | R9 | RBP | RSP | AL

  /** `.Lend_if%d`, `.Lelse%d`, `.Lwhile%d`, `.Lend_while%d`, `.Lfor%d`, `.Lend_for%d` */
  datatype Label = EndIf(n: nat) | Else(n: nat) | WhileL(n: nat) | EndWhile(n: nat) | ForL(n: nat) | EndFor(n: nat)

  /** The condition codes of sete, setne, setl and setle. */
  datatype Cc = E | NE | L | LE

  datatype Instr =
    | MovImm(dst: Reg, imm: int)      // mov r, N
    | PushImm(imm: int)               // push N
    | Push(src: Reg)                  // push r
    | Pop(dst: Reg)                   // pop r
    | Mov(dst: Reg, src: Reg)         // mov r, r
    | SubImm(dst: Reg, imm: int)      // sub r, N
    | Load(dst: Reg, addr: Reg)       // mov r, [r]
    | Store(addr: Reg, src: Reg)      // mov [r], r
    | CmpImm(reg: Reg, imm: int)      // cmp r, N
    | Cmp(a: Reg, b: Reg)             // cmp r, r
    | Je(target: Label)
    | Jmp(target: Label)
    | Def(at: Label)                  // at:
    | AlignStack                      // and rsp, -16
    | CallSym(name: string)           // call name
    | Ret
    | AddRR(dst: Reg, src: Reg)
    | SubRR(dst: Reg, src: Reg)
    | ImulRR(dst: Reg, src: Reg)
    | Cqo
    | Idiv(src: Reg)
    | SetCC(cc: Cc, dst: Reg)       // setCC al
    | Movzb(dst: Reg, src: Reg)       // movzb rax, al

  /** arg_regs */
  const ArgRegs: seq<Reg> := [RDI, RSI, RDX, RCX, R8, R9]

  datatype GenError =
    | NotLvalue        // assignment to something other than a variable
    | Unreachable      // "should be unreachable": no rule for the node kind
    | MissingOperand   // the source generates a NULL child

  datatype Lowered = Lowered(code: seq<Instr>, next: nat)

  datatype LResult = Done(value: Lowered) | Fail(error: GenError) {
    predicate IsFailure() { Fail? }
    function PropagateFailure(): LResult requires Fail? { Fail(error) }
    function Extract(): Lowered requires Done? { value }
  }

  // ---------------------------------------------------------------- is_expr

  /** The node kinds as gen_stmt sees them. */
  datatype NodeKind =
    | NdNum | NdLvar | NdAsgn | NdAdd | NdSub | NdMul | NdDiv | NdEq | NdNeq | NdLt | NdLte
    | NdCall | NdReturn | NdIf | NdWhile | NdFor | NdBlock | NdVarDecl | NdOther

  function KindOf(n: Node): NodeKind
  {
    match n
    case Num(_) => NdNum
    case Var(_, _) => NdLvar
    case Binop(Assign, _, _) => NdAsgn
    case Binop(Add, _, _) => NdAdd
    case Binop(Sub, _, _) => NdSub
    case Binop(Mul, _, _) => NdMul
    case Binop(Div, _, _) => NdDiv
    case Binop(Eq, _, _) => NdEq
    case Binop(Neq, _, _) => NdNeq
    case Binop(Lt, _, _) => NdLt
    case Binop(Lte, _, _) => NdLte
    case Call(_, _) => NdCall
    case Return(_) => NdReturn
    case If(_, _, _) => NdIf
    case While(_, _) => NdWhile
    case For(_, _, _, _) => NdFor
    case Block(_) => NdBlock
    case VarDecl(_, _) => NdVarDecl
    case _ => NdOther
  }

  /** expr_kinds, in the order of the source's array: the kinds whose value
      gen_stmt pops.  ND_CALL is not one of them. */
  const ExprKindTable: seq<NodeKind> := [NdNum, NdLvar, NdAsgn, NdAdd, NdSub, NdMul, NdDiv, NdEq, NdNeq, NdLt, NdLte]

  const ExprKinds: set<NodeKind> := {NdNum, NdLvar, NdAsgn, NdAdd, NdSub, NdMul, NdDiv, NdEq, NdNeq, NdLt, NdLte}

  /** is_expr: membership in expr_kinds. */
  predicate IsExpr(k: NodeKind)
  {
    k in ExprKinds
  }

  /** The set holds exactly the kinds of the table. */
  lemma ExprKindTableIsSet(k: NodeKind)
    ensures k in ExprKindTable <==> IsExpr(k)
  {
    if k in ExprKinds {
      var i := match k
        case NdNum => 0 case NdLvar => 1 case NdAsgn => 2 case NdAdd => 3 case NdSub => 4
        case NdMul => 5 case NdDiv => 6 case NdEq => 7 case NdNeq => 8 case NdLt => 9 case _ => 10;
      assert ExprKindTable[i] == k;
    }
  }

  // ---------------------------------------------------------------- lowering

  /** No call passes more than the six register arguments. */
  predicate CallsFit(n: Node)
  {
    match n
    case Binop(_, l, r) => CallsFit(l) && CallsFit(r)
    case Unop(_, e) => CallsFit(e)
    case Cond(t, a, b) => CallsFit(t) && CallsFit(a) && CallsFit(b)
    case Attr(b, _) => CallsFit(b)
    case Call(_, args) => |args| <= |ArgRegs| && forall a | a in args :: CallsFit(a)
    case ArrayLit(es) => forall e | e in es :: CallsFit(e)
    case VarDecl(_, init) => init.Some? ==> CallsFit(init.value)
    case Return(v) => v.Some? ==> CallsFit(v.value)
    case If(c, t, e) => CallsFit(c) && CallsFit(t) && (e.Some? ==> CallsFit(e.value))
    case While(c, b) => CallsFit(c) && CallsFit(b)
    case For(i, g, s, b) =>
      (i.Some? ==> CallsFit(i.value)) && (g.Some? ==> CallsFit(g.value)) &&
      (s.Some? ==> CallsFit(s.value)) && CallsFit(b)
    case DoWhile(b, c) => CallsFit(b) && CallsFit(c)
    case Block(ss) => forall s | s in ss :: CallsFit(s)
    case _ => true
  }

  /** What gen accepts without reading past arg_regs or a NULL child. */
  predicate Lowerable(n: Node)
  {
    Complete(n) && CallsFit(n)
  }

  /** The number of `if` and `while` nodes in a tree: the amount by which gen
      advances label_num. */
  function Loops(n: Node): nat
    decreases n, 1
  {
    match n
    case Num(_) => 0
    case Var(_, _) => 0
    case Str(_) => 0
    case Chr(_) => 0
    case Binop(_, l, r) => Loops(l) + Loops(r)
    case Unop(_, e) => Loops(e)
    case Cond(t, a, b) => Loops(t) + Loops(a) + Loops(b)
    case Attr(b, _) => Loops(b)
    case Call(_, args) => LoopsFrom(args, 0)
    case ArrayLit(es) => LoopsFrom(es, 0)
    case VarDecl(_, init) => if init.Some? then Loops(init.value) else 0
    case Return(v) => if v.Some? then Loops(v.value) else 0
    case If(c, t, e) => 1 + Loops(c) + Loops(t) + (if e.Some? then Loops(e.value) else 0)
    case While(c, b) => 1 + Loops(c) + Loops(b)
    case For(i, g, s, b) =>
      (if i.Some? then Loops(i.value) else 0) + (if g.Some? then Loops(g.value) else 0) +
      (if s.Some? then Loops(s.value) else 0) + Loops(b)
    case DoWhile(b, c) => Loops(b) + Loops(c)
    case Break => 0
    case Continue => 0
    case Block(ss) => LoopsFrom(ss, 0)
  }

  function LoopsFrom(ns: seq<Node>, i: nat): nat
    requires i <= |ns|
    decreases ns, |ns| - i
  {
    if i == |ns| then 0 else Loops(ns[i]) + LoopsFrom(ns, i + 1)
  }

  /** The pops of a call: the last argument into arg_regs[n-1] first, down to
      the first argument into arg_regs[0]. */
  function PopArgs(n: nat): (code: seq<Instr>)
    requires n <= |ArgRegs|
    ensures |code| == n
    ensures forall i | 0 <= i < n :: code[i] == Pop(ArgRegs[n - 1 - i])
  {
    if n == 0 then [] else [Pop(ArgRegs[n - 1])] + PopArgs(n - 1)
  }

  /** The instructions after `pop rdi; pop rax` for an operator. */
  function OpCode(op: BinOp): (r: Result<seq<Instr>>)
    ensures r.Ok? <==> op in {Add, Sub, Mul, Div, Eq, Neq, Lt, Lte}
    ensures r.Err? ==> r.error == Unreachable
  {
    match op
    case Add => Ok([AddRR(RAX, RDI)])
    case Sub => Ok([SubRR(RAX, RDI)])
    case Mul => Ok([ImulRR(RAX, RDI)])
    case Div => Ok([Cqo, Idiv(RDI)])
    case Eq => Ok(Compare(E))
    case Neq => Ok(Compare(NE))
    case Lt => Ok(Compare(L))
    case Lte => Ok(Compare(LE))
    case _ => Err(Unreachable)
  }

  datatype Result<T> = Ok(value: T) | Err(error: GenError)

  function Compare(cc: Cc): seq<Instr>
  {
    [Cmp(RAX, RDI), SetCC(cc, AL), Movzb(RAX, AL)]
  }

  /** The frame epilogue after `return`'s value is in rax. */
  const Epilogue: seq<Instr> := [Pop(RAX), Mov(RSP, RBP), Pop(RBP), Ret]

  /** gen(node) with label_num = k on entry. */
  function Lower(n: Node, k: nat): (r: LResult)
    requires Lowerable(n)
    ensures r.Done? ==> r.value.next == k + Loops(n)
    decreases n, 1
  {
    match n
    case Num(v) => Done(Lowered([MovImm(RAX, v), PushImm(v)], k))
    case Var(_, offset) => Done(Lowered([Mov(RAX, RBP), SubImm(RAX, offset), Load(RAX, RAX), Push(RAX)], k))
    case Binop(Assign, l, rhs) =>
      if !l.Var? then Fail(NotLvalue)
      else
        var v :- Lower(rhs, k);
        Done(Lowered([Mov(RAX, RBP), SubImm(RAX, l.offset), Push(RAX)] + v.code +
                     [Pop(RAX), Pop(RDI), Store(RDI, RAX), Push(RAX)], v.next))
    case Binop(_, _, _) => LowerBinop(n, k)
    case Return(v) =>
      var e :- Lower(v.value, k);
      Done(Lowered(e.code + Epilogue, e.next))
    case If(_, _, _) => LowerIf(n, k)
    case While(_, _) => LowerWhile(n, k)
    case For(_, _, _, _) => LowerFor(n, k)
    case Block(_) => LowerSeq(n, 0, k)
    case Call(name, args) =>
      var a :- LowerArgs(n, 0, k);
      Done(Lowered(a.code + PopArgs(|args|) + [AlignStack, CallSym(name), Push(RAX)], a.next))
    case _ => LowerRejected(n, k)
  }

  /** An arithmetic or comparison operator: both operands, `pop rdi`,
      `pop rax`, the operation, `push rax`. */
  function LowerBinop(n: Node, k: nat): (r: LResult)
    requires n.Binop? && n.op != Assign && Lowerable(n)
    ensures r.Done? ==> r.value.next == k + Loops(n)
    decreases n, 0
  {
    var lc :- Lower(n.lhs, k);
    var rc :- Lower(n.rhs, lc.next);
    match OpCode(n.op)
    case Err(e) => Fail(e)
    case Ok(tail) => Done(Lowered(lc.code + rc.code + Operate(tail), rc.next))
  }

  /** The right operand into rdi, the left into rax, the operation, the
      result pushed. */
  function Operate(tail: seq<Instr>): seq<Instr>
  {
    [Pop(RDI), Pop(RAX)] + tail + [Push(RAX)]
  }

  /** `if`: the `je` target is numbered with the counter after the condition,
      the later labels with the counter after each branch. */
  function LowerIf(n: Node, k: nat): (r: LResult)
    requires n.If? && Lowerable(n)
    ensures r.Done? ==> r.value.next == k + Loops(n)
    decreases n, 0
  {
    var cond :- Lower(n.cond, k);
    var yes :- LowerStmt(n.thenS, cond.next);
    if n.elseS.None? then
      Done(Lowered(cond.code + [Pop(RAX), CmpImm(RAX, 0), Je(EndIf(cond.next))] + yes.code +
                   [Def(EndIf(yes.next))], yes.next + 1))
    else
      var no :- LowerStmt(n.elseS.value, yes.next);
      Done(Lowered(cond.code + [Pop(RAX), CmpImm(RAX, 0), Je(Else(cond.next))] + yes.code +
                   [Jmp(EndIf(yes.next)), Def(Else(yes.next))] + no.code + [Def(EndIf(no.next))],
                   no.next + 1))
  }

  /** `while`: the head label is numbered on entry, the rest after the body. */
  function LowerWhile(n: Node, k: nat): (r: LResult)
    requires n.While? && Lowerable(n)
    ensures r.Done? ==> r.value.next == k + Loops(n)
    decreases n, 0
  {
    var cond :- Lower(n.cond, k);
    var body :- LowerStmt(n.body, cond.next);
    Done(Lowered([Def(WhileL(k))] + cond.code + [Pop(RAX), CmpImm(RAX, 0), Je(EndWhile(cond.next))] +
                 body.code + [Jmp(WhileL(body.next)), Def(EndWhile(body.next))], body.next + 1))
  }

  /** `for`: initializer, head label, guard, body, step, jump back; the
      counter is not advanced. */
  function LowerFor(n: Node, k: nat): (r: LResult)
    requires n.For? && Lowerable(n)
    ensures r.Done? ==> r.value.next == k + Loops(n)
    decreases n, 0
  {
    var init :- LowerStmt(n.init.value, k);
    var cond :- Lower(n.guard.value, init.next);
    var body :- LowerStmt(n.body, cond.next);
    var step :- LowerStmt(n.step.value, body.next);
    Done(Lowered(init.code + [Def(ForL(init.next))] + cond.code +
                 [Pop(RAX), CmpImm(RAX, 0), Je(EndFor(cond.next))] + body.code + step.code +
                 [Jmp(ForL(step.next)), Def(EndFor(step.next))], step.next))
  }

  /** The kinds gen has no rule for.  Those with both children reach the
      unreachable error after generating them; the others generate a NULL
      child. */
  function LowerRejected(n: Node, k: nat): (r: LResult)
    requires Lowerable(n)
    requires !(n.Num? || n.Var? || n.Binop? || n.Return? || n.If? || n.While? || n.For? || n.Block? || n.Call?)
    ensures r.Fail?
    decreases n, 0
  {
    match n
    case VarDecl(_, init) =>
      // lhs is the variable, rhs the initializer; no rule matches after them.
      var _ :- Lower(init.value, k);
      Fail(Unreachable)
    case Cond(_, a, b) =>
      var _ :- Lower(a, k);
      var _ :- Lower(b, k + Loops(a));
      Fail(Unreachable)
    case Unop(_, e) =>
      var _ :- Lower(e, k);
      Fail(MissingOperand)
    case Attr(b, _) =>
      var _ :- Lower(b, k);
      Fail(MissingOperand)
    case _ => Fail(MissingOperand)
  }

  /** gen_stmt: gen, then `pop rax` when the kind is in expr_kinds. */
  function LowerStmt(n: Node, k: nat): (r: LResult)
    requires Lowerable(n)
    ensures r.Done? ==> r.value.next == k + Loops(n)
    decreases n, 2
  {
    var g :- Lower(n, k);
    Done(Lowered(g.code + (if IsExpr(KindOf(n)) then [Pop(RAX)] else []), g.next))
  }

  /** The statements of a block from the i-th on, through gen_stmt. */
  function LowerSeq(block: Node, i: nat, k: nat): (r: LResult)
    requires block.Block? && Lowerable(block) && i <= |block.stmts|
    ensures r.Done? ==> r.value.next == k + LoopsFrom(block.stmts, i)
    decreases block, 0, |block.stmts| - i
  {
    if i == |block.stmts| then Done(Lowered([], k))
    else
      var s :- LowerStmt(block.stmts[i], k);
      var rest :- LowerSeq(block, i + 1, s.next);
      Done(Lowered(s.code + rest.code, rest.next))
  }

  /** The arguments of a call from the i-th on, left to right, through gen. */
  function LowerArgs(call: Node, i: nat, k: nat): (r: LResult)
    requires call.Call? && Lowerable(call) && i <= |call.args|
    ensures r.Done? ==> r.value.next == k + LoopsFrom(call.args, i)
    decreases call, 0, |call.args| - i
  {
    if i == |call.args| then Done(Lowered([], k))
    else
      var a :- Lower(call.args[i], k);
      var rest :- LowerArgs(call, i + 1, a.next);
      Done(Lowered(a.code + rest.code, rest.next))
  }

  // ---------------------------------------------------------------- sequences

  /** `done` followed by the code of `rest`, or the failure of `rest`. */
  function After(done: seq<Instr>, rest: LResult): (r: LResult)
    ensures r.Fail? <==> rest.Fail?
    ensures r.Fail? ==> r.error == rest.error
    ensures r.Done? ==> r.value.code == done + rest.value.code && r.value.next == rest.value.next
  {
    match rest
    case Done(l) => Done(Lowered(done + l.code, l.next))
    case Fail(e) => Fail(e)
  }

  lemma AfterAfter(d: seq<Instr>, a: seq<Instr>, r: LResult)
    ensures After(d, After(a, r)) == After(d + a, r)
  {
    if r.Done? {
      assert d + (a + r.value.code) == (d + a) + r.value.code;
    }
  }

  /** One statement of a block, then the rest. */
  lemma LowerSeqStep(block: Node, i: nat, k: nat)
    requires block.Block? && Lowerable(block) && i < |block.stmts|
    ensures LowerSeq(block, i, k) ==
            match LowerStmt(block.stmts[i], k)
            case Fail(e) => Fail(e)
            case Done(s) => After(s.code, LowerSeq(block, i + 1, s.next))
  {
  }

  /** One argument of a call, then the rest. */
  lemma LowerArgsStep(call: Node, i: nat, k: nat)
    requires call.Call? && Lowerable(call) && i < |call.args|
    ensures LowerArgs(call, i, k) ==
            match Lower(call.args[i], k)
            case Fail(e) => Fail(e)
            case Done(a) => After(a.code, LowerArgs(call, i + 1, a.next))
  {
  }
}
