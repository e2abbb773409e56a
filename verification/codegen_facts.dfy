/**
 * What the code of gen and gen_stmt does to the stack: an expression of the
 * supported kinds pushes exactly one value, a statement built from them
 * leaves the stack as it found it, and the arithmetic fragment leaves the
 * value of the expression, as C defines it, on top.
 */
module CodegenFacts {
  import opened Syntax
  import opened Codegen

  // ---------------------------------------------------------------- stack depth

  /** The change in stack depth of one instruction, counted in slots. */
  function Effect(i: Instr): int
  {
    match i
    case Push(_) => 1
    case PushImm(_) => 1
    case Pop(_) => -1
    case _ => 0
  }

  /** The change in stack depth of straight-line code. */
  function Net(code: seq<Instr>): int
  {
    if |code| == 0 then 0 else Effect(code[0]) + Net(code[1..])
  }

  lemma {:induction false} NetAppend(a: seq<Instr>, b: seq<Instr>)
    ensures Net(a + b) == Net(a) + Net(b)
    decreases |a|
  {
    if |a| == 0 {
      assert a + b == b;
    } else {
      assert (a + b)[1..] == a[1..] + b;
      NetAppend(a[1..], b);
    }
  }

  lemma PopArgsNet(n: nat)
    requires n <= |ArgRegs|
    ensures Net(PopArgs(n)) + n == 0
    decreases n
  {
    if n > 0 {
      NetAppend([Pop(ArgRegs[n - 1])], PopArgs(n - 1));
      PopArgsNet(n - 1);
    }
  }

  /** The operators gen has a rule for. */
  predicate Supported(op: BinOp)
  {
    op == Add || op == Sub || op == Mul || op == Div || op == Eq || op == Neq || op == Lt || op == Lte
  }

  /** An expression of the kinds gen generates: numbers, variables,
      assignments to a variable, the supported operators and calls with at
      most six arguments. */
  predicate ValueExpr(e: Node)
  {
    match e
    case Num(_) => true
    case Var(_, _) => true
    case Binop(op, l, r) =>
      (if op == Assign then l.Var? else Supported(op) && ValueExpr(l)) && ValueExpr(r)
    case Call(_, args) => |args| <= |ArgRegs| && forall a | a in args :: ValueExpr(a)
    case _ => false
  }

  lemma ValueLowerable(e: Node)
    requires ValueExpr(e)
    ensures Lowerable(e)
  {
    match e
    case Call(_, args) =>
      forall a | a in args
        ensures Lowerable(a)
      {
        ValueLowerable(a);
      }
    case Binop(op, l, r) =>
      ValueLowerable(r);
      if op != Assign {
        ValueLowerable(l);
      }
    case _ =>
  }

  /** gen of a supported expression succeeds and pushes exactly one value. */
  lemma {:induction false} ValuePushesOne(e: Node, k: nat)
    requires ValueExpr(e)
    ensures Lowerable(e)
    ensures Lower(e, k).Done? && Net(Lower(e, k).value.code) == 1
    decreases e, 1
  {
    ValueLowerable(e);
    match e
    case Num(v) =>
      assert Net([PushImm(v)]) == 1;
      assert Lower(e, k).value.code == [MovImm(RAX, v), PushImm(v)];
    case Var(_, offset) =>
      assert Net([Push(RAX)]) == 1;
      assert Net([Load(RAX, RAX), Push(RAX)]) == 1;
      assert Net([SubImm(RAX, offset), Load(RAX, RAX), Push(RAX)]) == 1;
    case Binop(Assign, _, _) =>
      AssignPushesOne(e, k);
    case Binop(_, _, _) =>
      OperatorPushesOne(e, k);
    case Call(_, _) =>
      CallPushesOne(e, k);
  }

  lemma {:induction false} AssignPushesOne(e: Node, k: nat)
    requires e.Binop? && e.op == Assign && ValueExpr(e)
    ensures Lowerable(e)
    ensures Lower(e, k).Done? && Net(Lower(e, k).value.code) == 1
    decreases e, 0
  {
    ValueLowerable(e);
    ValuePushesOne(e.rhs, k);
    var v := Lower(e.rhs, k).value;
    var pre := [Mov(RAX, RBP), SubImm(RAX, e.lhs.offset), Push(RAX)];
    var post := [Pop(RAX), Pop(RDI), Store(RDI, RAX), Push(RAX)];
    assert Net(pre) == 1 by {
      assert Net([Push(RAX)]) == 1;
      assert Net([SubImm(RAX, e.lhs.offset), Push(RAX)]) == 1;
    }
    assert Net(post) == -1 by {
      assert Net([Push(RAX)]) == 1;
      assert Net([Store(RDI, RAX), Push(RAX)]) == 1;
    }
    NetAppend(pre, v.code);
    NetAppend(pre + v.code, post);
    assert Lower(e, k).value.code == pre + v.code + post;
  }

  lemma {:induction false} OperatorPushesOne(e: Node, k: nat)
    requires e.Binop? && e.op != Assign && ValueExpr(e)
    ensures Lowerable(e)
    ensures Lower(e, k).Done? && Net(Lower(e, k).value.code) == 1
    decreases e, 0
  {
    ValueLowerable(e);
    ValuePushesOne(e.lhs, k);
    var lc := Lower(e.lhs, k).value;
    ValuePushesOne(e.rhs, lc.next);
    var rc := Lower(e.rhs, lc.next).value;
    OperateNet(e.op);
    NetAppend(lc.code, rc.code);
    NetAppend(lc.code + rc.code, Operate(OpCode(e.op).value));
    assert Lower(e, k) == LowerBinop(e, k);
  }

  /** Two pops, a balanced operation and a push: one value fewer. */
  lemma OperateNet(op: BinOp)
    requires Supported(op)
    ensures OpCode(op).Ok? && Net(Operate(OpCode(op).value)) == -1
  {
    var tail := OpCode(op).value;
    assert Net(tail) == 0;
    assert Net([Pop(RDI), Pop(RAX)]) == -2;
    assert Net([Push(RAX)]) == 1;
    NetAppend([Pop(RDI), Pop(RAX)], tail);
    NetAppend([Pop(RDI), Pop(RAX)] + tail, [Push(RAX)]);
  }

  lemma {:induction false} CallPushesOne(e: Node, k: nat)
    requires e.Call? && ValueExpr(e)
    ensures Lowerable(e)
    ensures Lower(e, k).Done? && Net(Lower(e, k).value.code) == 1
    decreases e, 0
  {
    ValueLowerable(e);
    ArgsPushAll(e, 0, k);
    var a := LowerArgs(e, 0, k).value;
    var n := |e.args|;
    PopArgsNet(n);
    var post := [AlignStack, CallSym(e.callee), Push(RAX)];
    assert Net(post) == 1 by {
      assert Net([Push(RAX)]) == 1;
      assert Net([CallSym(e.callee), Push(RAX)]) == 1;
    }
    NetAppend(a.code, PopArgs(n));
    NetAppend(a.code + PopArgs(n), post);
    assert Lower(e, k).value.code == a.code + PopArgs(n) + post;
  }

  /** The arguments from the i-th on push one value each. */
  lemma {:induction false} ArgsPushAll(call: Node, i: nat, k: nat)
    requires call.Call? && ValueExpr(call) && i <= |call.args|
    ensures Lowerable(call)
    ensures LowerArgs(call, i, k).Done? && Net(LowerArgs(call, i, k).value.code) == |call.args| - i
    decreases call, 0, |call.args| - i
  {
    ValueLowerable(call);
    if i < |call.args| {
      assert call.args[i] in call.args;
      ValuePushesOne(call.args[i], k);
      var a := Lower(call.args[i], k).value;
      ArgsPushAll(call, i + 1, a.next);
      NetAppend(a.code, LowerArgs(call, i + 1, a.next).value.code);
    }
  }

  /** A statement gen_stmt leaves balanced: an expression statement whose
      kind is popped, a return-free if, while or for over such statements,
      or a block of them.  A call statement is not one (see Findings). */
  predicate Balanced(s: Node)
  {
    match s
    case If(c, t, e) => ValueExpr(c) && Balanced(t) && (e.Some? ==> Balanced(e.value))
    case While(c, b) => ValueExpr(c) && Balanced(b)
    case For(i, g, st, b) =>
      i.Some? && g.Some? && st.Some? &&
      ValueExpr(i.value) && !i.value.Call? && ValueExpr(g.value) &&
      ValueExpr(st.value) && !st.value.Call? && Balanced(b)
    case Block(ss) => forall x | x in ss :: Balanced(x)
    case _ => ValueExpr(s) && !s.Call?
  }

  lemma BalancedLowerable(s: Node)
    requires Balanced(s)
    ensures Lowerable(s)
  {
    match s
    case If(c, t, e) =>
      ValueLowerable(c);
      BalancedLowerable(t);
      if e.Some? { BalancedLowerable(e.value); }
    case While(c, b) =>
      ValueLowerable(c);
      BalancedLowerable(b);
    case For(i, g, st, b) =>
      ValueLowerable(i.value);
      ValueLowerable(g.value);
      ValueLowerable(st.value);
      BalancedLowerable(b);
    case Block(ss) =>
      forall x | x in ss
        ensures Lowerable(x)
      {
        BalancedLowerable(x);
      }
    case _ =>
      ValueLowerable(s);
  }

  /** A value expression other than a call has a kind in expr_kinds. */
  lemma ValueKindIsExpr(e: Node)
    requires ValueExpr(e) && !e.Call?
    ensures IsExpr(KindOf(e))
  {
  }

  /** gen_stmt of a balanced statement succeeds and leaves the stack depth
      unchanged. */
  lemma {:induction false} StatementBalanced(s: Node, k: nat)
    requires Balanced(s)
    ensures Lowerable(s)
    ensures LowerStmt(s, k).Done? && Net(LowerStmt(s, k).value.code) == 0
    decreases s, 2
  {
    BalancedLowerable(s);
    if s.If? {
      IfBalanced(s, k);
    } else if s.While? {
      WhileBalanced(s, k);
    } else if s.For? {
      ForBalanced(s, k);
    } else if s.Block? {
      BlockStmtBalanced(s, k);
    } else {
      ExprStmtBalanced(s, k);
    }
  }

  lemma BlockStmtBalanced(s: Node, k: nat)
    requires s.Block? && Balanced(s) && Lowerable(s)
    ensures LowerStmt(s, k).Done? && Net(LowerStmt(s, k).value.code) == 0
    decreases s, 1
  {
    StmtIsGen(s, k);
    BlockBalanced(s, 0, k);
  }

  /** gen_stmt adds nothing after a kind outside expr_kinds. */
  lemma StmtIsGen(s: Node, k: nat)
    requires Lowerable(s) && !IsExpr(KindOf(s))
    ensures LowerStmt(s, k) == Lower(s, k)
  {
    if Lower(s, k).Done? {
      assert Lower(s, k).value.code + [] == Lower(s, k).value.code;
    }
  }

  /** The code of an `if` is balanced when its condition pushes one value and
      its branches are balanced. */
  lemma IfNet(s: Node, k: nat, cond: Lowered, yes: Lowered, no: Lowered)
    requires s.If? && Lowerable(s)
    requires Lower(s.cond, k) == Done(cond) && Net(cond.code) == 1
    requires LowerStmt(s.thenS, cond.next) == Done(yes) && Net(yes.code) == 0
    requires s.elseS.Some? ==> LowerStmt(s.elseS.value, yes.next) == Done(no) && Net(no.code) == 0
    ensures Lower(s, k).Done? && Net(Lower(s, k).value.code) == 0
  {
    if s.elseS.None? {
      IfCodeNet(cond, yes);
    } else {
      IfElseCodeNet(cond, yes, no);
    }
    assert Lower(s, k) == LowerIf(s, k);
  }

  /** The instructions of an `if` without `else`. */
  lemma IfCodeNet(cond: Lowered, yes: Lowered)
    requires Net(cond.code) == 1 && Net(yes.code) == 0
    ensures Net(cond.code + [Pop(RAX), CmpImm(RAX, 0), Je(EndIf(cond.next))] + yes.code +
                [Def(EndIf(yes.next))]) == 0
  {
    var test := [Pop(RAX), CmpImm(RAX, 0), Je(EndIf(cond.next))];
    var tail := [Def(EndIf(yes.next))];
    TestNet(EndIf(cond.next));
    NetQuiet(tail);
    NetAppend(cond.code, test);
    NetAppend(cond.code + test, yes.code);
    NetAppend(cond.code + test + yes.code, tail);
  }

  /** The instructions of an `if` with `else`. */
  lemma IfElseCodeNet(cond: Lowered, yes: Lowered, no: Lowered)
    requires Net(cond.code) == 1 && Net(yes.code) == 0 && Net(no.code) == 0
    ensures Net(cond.code + [Pop(RAX), CmpImm(RAX, 0), Je(Else(cond.next))] + yes.code +
                [Jmp(EndIf(yes.next)), Def(Else(yes.next))] + no.code + [Def(EndIf(no.next))]) == 0
  {
    var test := [Pop(RAX), CmpImm(RAX, 0), Je(Else(cond.next))];
    var mid := [Jmp(EndIf(yes.next)), Def(Else(yes.next))];
    var tail := [Def(EndIf(no.next))];
    TestNet(Else(cond.next));
    NetQuiet(mid);
    NetQuiet(tail);
    NetAppend(cond.code, test);
    NetAppend(cond.code + test, yes.code);
    NetAppend(cond.code + test + yes.code, mid);
    NetAppend(cond.code + test + yes.code + mid, no.code);
    NetAppend(cond.code + test + yes.code + mid + no.code, tail);
  }

  lemma NetQuiet(code: seq<Instr>)
    requires forall i | 0 <= i < |code| :: Effect(code[i]) == 0
    ensures Net(code) == 0
  {
    if |code| > 0 {
      NetQuiet(code[1..]);
    }
  }

  /** The test after a condition pops its value. */
  lemma TestNet(target: Label)
    ensures Net([Pop(RAX), CmpImm(RAX, 0), Je(target)]) == -1
  {
    assert Net([Je(target)]) == 0;
    assert Net([CmpImm(RAX, 0), Je(target)]) == 0;
  }

  lemma {:induction false} IfBalanced(s: Node, k: nat)
    requires s.If? && Balanced(s) && Lowerable(s)
    ensures LowerStmt(s, k).Done? && Net(LowerStmt(s, k).value.code) == 0
    decreases s, 1
  {
    StmtIsGen(s, k);
    ValuePushesOne(s.cond, k);
    var cond := Lower(s.cond, k).value;
    StatementBalanced(s.thenS, cond.next);
    var yes := LowerStmt(s.thenS, cond.next).value;
    var no := yes;
    if s.elseS.Some? {
      StatementBalanced(s.elseS.value, yes.next);
      no := LowerStmt(s.elseS.value, yes.next).value;
    }
    IfNet(s, k, cond, yes, no);
  }

  /** The code of a `while` is balanced when its condition pushes one value
      and its body is balanced. */
  lemma WhileNet(s: Node, k: nat, cond: Lowered, body: Lowered)
    requires s.While? && Lowerable(s)
    requires Lower(s.cond, k) == Done(cond) && Net(cond.code) == 1
    requires LowerStmt(s.body, cond.next) == Done(body) && Net(body.code) == 0
    ensures Lower(s, k).Done? && Net(Lower(s, k).value.code) == 0
  {
    WhileCodeNet(k, cond, body);
    assert Lower(s, k) == LowerWhile(s, k);
  }

  /** The instructions of a `while`. */
  lemma WhileCodeNet(k: nat, cond: Lowered, body: Lowered)
    requires Net(cond.code) == 1 && Net(body.code) == 0
    ensures Net([Def(WhileL(k))] + cond.code + [Pop(RAX), CmpImm(RAX, 0), Je(EndWhile(cond.next))] +
                body.code + [Jmp(WhileL(body.next)), Def(EndWhile(body.next))]) == 0
  {
    var head := [Def(WhileL(k))];
    var test := [Pop(RAX), CmpImm(RAX, 0), Je(EndWhile(cond.next))];
    var back := [Jmp(WhileL(body.next)), Def(EndWhile(body.next))];
    TestNet(EndWhile(cond.next));
    NetQuiet(head);
    NetQuiet(back);
    NetAppend(head, cond.code);
    NetAppend(head + cond.code, test);
    NetAppend(head + cond.code + test, body.code);
    NetAppend(head + cond.code + test + body.code, back);
  }

  lemma {:induction false} WhileBalanced(s: Node, k: nat)
    requires s.While? && Balanced(s) && Lowerable(s)
    ensures LowerStmt(s, k).Done? && Net(LowerStmt(s, k).value.code) == 0
    decreases s, 1
  {
    StmtIsGen(s, k);
    ValuePushesOne(s.cond, k);
    var cond := Lower(s.cond, k).value;
    StatementBalanced(s.body, cond.next);
    WhileNet(s, k, cond, LowerStmt(s.body, cond.next).value);
  }

  /** The code of a `for` is balanced when its clauses leave the stack as
      they found it (the guard pushing its value for the test). */
  lemma ForNet(s: Node, k: nat, init: Lowered, cond: Lowered, body: Lowered, step: Lowered)
    requires s.For? && Lowerable(s)
    requires LowerStmt(s.init.value, k) == Done(init) && Net(init.code) == 0
    requires Lower(s.guard.value, init.next) == Done(cond) && Net(cond.code) == 1
    requires LowerStmt(s.body, cond.next) == Done(body) && Net(body.code) == 0
    requires LowerStmt(s.step.value, body.next) == Done(step) && Net(step.code) == 0
    ensures Lower(s, k).Done? && Net(Lower(s, k).value.code) == 0
  {
    ForCodeNet(init, cond, body, step);
    assert Lower(s, k) == LowerFor(s, k);
  }

  /** The instructions of a `for` around balanced clauses and a condition
      that pushes one value. */
  lemma ForCodeNet(init: Lowered, cond: Lowered, body: Lowered, step: Lowered)
    requires Net(init.code) == 0 && Net(cond.code) == 1 && Net(body.code) == 0 && Net(step.code) == 0
    ensures Net(init.code + [Def(ForL(init.next))] + cond.code +
                [Pop(RAX), CmpImm(RAX, 0), Je(EndFor(cond.next))] + body.code + step.code +
                [Jmp(ForL(step.next)), Def(EndFor(step.next))]) == 0
  {
    var head := [Def(ForL(init.next))];
    var test := [Pop(RAX), CmpImm(RAX, 0), Je(EndFor(cond.next))];
    var back := [Jmp(ForL(step.next)), Def(EndFor(step.next))];
    TestNet(EndFor(cond.next));
    NetQuiet(head);
    NetQuiet(back);
    NetAppend(init.code, head);
    NetAppend(init.code + head, cond.code);
    NetAppend(init.code + head + cond.code, test);
    NetAppend(init.code + head + cond.code + test, body.code);
    NetAppend(init.code + head + cond.code + test + body.code, step.code);
    NetAppend(init.code + head + cond.code + test + body.code + step.code, back);
  }

  /** gen_stmt of a popped expression is balanced. */
  lemma ExprStmtBalanced(e: Node, k: nat)
    requires ValueExpr(e) && !e.Call?
    ensures Lowerable(e)
    ensures LowerStmt(e, k).Done? && Net(LowerStmt(e, k).value.code) == 0
  {
    ValueKindIsExpr(e);
    ValuePushesOne(e, k);
    NetAppend(Lower(e, k).value.code, [Pop(RAX)]);
  }

  lemma {:induction false} ForBalanced(s: Node, k: nat)
    requires s.For? && Balanced(s) && Lowerable(s)
    ensures LowerStmt(s, k).Done? && Net(LowerStmt(s, k).value.code) == 0
    decreases s, 1
  {
    StmtIsGen(s, k);
    var init, cond, body, step := ForParts(s, k);
    ForNet(s, k, init, cond, body, step);
  }

  /** The four clauses of a balanced `for`, each lowered in turn. */
  lemma {:induction false} ForParts(s: Node, k: nat) returns (init: Lowered, cond: Lowered, body: Lowered, step: Lowered)
    requires s.For? && Balanced(s) && Lowerable(s)
    ensures LowerStmt(s.init.value, k) == Done(init) && Net(init.code) == 0
    ensures Lower(s.guard.value, init.next) == Done(cond) && Net(cond.code) == 1
    ensures LowerStmt(s.body, cond.next) == Done(body) && Net(body.code) == 0
    ensures LowerStmt(s.step.value, body.next) == Done(step) && Net(step.code) == 0
    decreases s, 0
  {
    ExprStmtBalanced(s.init.value, k);
    init := LowerStmt(s.init.value, k).value;
    ValuePushesOne(s.guard.value, init.next);
    cond := Lower(s.guard.value, init.next).value;
    StatementBalanced(s.body, cond.next);
    body := LowerStmt(s.body, cond.next).value;
    ExprStmtBalanced(s.step.value, body.next);
    step := LowerStmt(s.step.value, body.next).value;
  }


  lemma {:induction false} BlockBalanced(block: Node, i: nat, k: nat)
    requires block.Block? && Balanced(block) && Lowerable(block) && i <= |block.stmts|
    ensures LowerSeq(block, i, k).Done? && Net(LowerSeq(block, i, k).value.code) == 0
    decreases block, 0, |block.stmts| - i
  {
    if i < |block.stmts| {
      var s := StmtOfBlock(block, i, k);
      BlockBalanced(block, i + 1, s.next);
      SeqNet(block, i, k, s);
    }
  }

  /** A statement of a balanced block is balanced. */
  lemma StmtOfBlock(block: Node, i: nat, k: nat) returns (s: Lowered)
    requires block.Block? && Balanced(block) && Lowerable(block) && i < |block.stmts|
    ensures LowerStmt(block.stmts[i], k) == Done(s) && Net(s.code) == 0
    decreases block, 0, |block.stmts| - i, 0
  {
    assert block.stmts[i] in block.stmts;
    StatementBalanced(block.stmts[i], k);
    s := LowerStmt(block.stmts[i], k).value;
  }

  /** A balanced statement followed by balanced statements. */
  lemma SeqNet(block: Node, i: nat, k: nat, s: Lowered)
    requires block.Block? && Lowerable(block) && i < |block.stmts|
    requires LowerStmt(block.stmts[i], k) == Done(s) && Net(s.code) == 0
    requires LowerSeq(block, i + 1, s.next).Done? && Net(LowerSeq(block, i + 1, s.next).value.code) == 0
    ensures LowerSeq(block, i, k).Done? && Net(LowerSeq(block, i, k).value.code) == 0
  {
    LowerSeqStep(block, i, k);
    NetAppend(s.code, LowerSeq(block, i + 1, s.next).value.code);
  }
}
