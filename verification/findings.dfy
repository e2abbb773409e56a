/**
 * Three places where the source does something other than what it evidently
 * means, each shown on a concrete input against the as-written model, and
 * the repaired behaviour with the intended property proved:
 *
 *  - sema_func's duplicate-parameter test compares only as many bytes as
 *    the first name has, so `f(a, ab)` is rejected;
 *  - gen numbers the labels of `if` and `while` with the counter as it is
 *    after the nested statements, and `for` never advances it, so nested
 *    loops and consecutive `for` loops define a label twice or jump to a
 *    label nobody defines;
 *  - is_expr leaves ND_CALL out, so a call statement leaves its result on
 *    the stack.
 */
module Findings {
  import opened Syntax
  import opened Codegen
  import opened CodegenFacts
  import Semantic

  // ---------------------------------------------------------------- duplicate parameters

  /** `int f(int a, int ab)`: the test as written reports `a` as a duplicate
      parameter; the intended test accepts the list. */
  lemma PrefixTestRejectsDistinctNames()
    ensures var ps := [Decl("a", IntType), Decl("ab", IntType)];
            Semantic.PrefixDuplicateFrom(ps, 0) == Some("a") &&
            !Semantic.HasDuplicate(ps) && Semantic.DuplicateFrom(ps, 0).None?
  {
    var ps := [Decl("a", IntType), Decl("ab", IntType)];
    assert Semantic.Clashes(ps[0].name, ps[1].name);
    assert ps[0].name != ps[1].name;
    Semantic.DuplicateTestExact(ps);
  }

  // ---------------------------------------------------------------- labels

  /** No label is defined twice. */
  predicate UniqueLabels(code: seq<Instr>)
  {
    forall i, j | 0 <= i < j < |code| && code[i].Def? :: code[j] != code[i]
  }

  /** Every label defined is numbered in [lo, hi). */
  ghost predicate NumberedIn(code: seq<Instr>, lo: nat, hi: nat)
  {
    forall l | Def(l) in code :: lo <= l.n < hi
  }

  /** Every jump goes to a label the code defines. */
  ghost predicate JumpsDefined(code: seq<Instr>)
  {
    forall l | Je(l) in code || Jmp(l) in code :: Def(l) in code
  }

  /** What an assembler accepts of the labels of a function body, with the
      numbers drawn from [lo, hi). */
  ghost predicate WellLabelled(code: seq<Instr>, lo: nat, hi: nat)
  {
    UniqueLabels(code) && NumberedIn(code, lo, hi) && JumpsDefined(code)
  }

  /** An instruction that neither defines nor jumps to a label. */
  predicate Quiet(i: Instr)
  {
    !(i.Def? || i.Je? || i.Jmp?)
  }

  /** Two definitions of one label. */
  lemma DefinedTwice(code: seq<Instr>, i: nat, j: nat)
    requires i < j < |code| && code[i].Def? && code[j] == code[i]
    ensures !UniqueLabels(code)
  {
  }

  /** A jump to a label that is not defined. */
  lemma JumpsNowhere(code: seq<Instr>, l: Label)
    requires Jmp(l) in code && Def(l) !in code
    ensures !JumpsDefined(code)
  {
  }

  /** Code that neither defines nor jumps to a label. */
  predicate LabelFree(code: seq<Instr>)
  {
    forall i | 0 <= i < |code| :: Quiet(code[i])
  }

  lemma LabelFreeJoin(a: seq<Instr>, b: seq<Instr>)
    requires LabelFree(a) && LabelFree(b)
    ensures LabelFree(a + b)
  {
    forall i | 0 <= i < |a + b|
      ensures Quiet((a + b)[i])
    {
      if i < |a| {
        assert (a + b)[i] == a[i];
      } else {
        assert (a + b)[i] == b[i - |a|];
      }
    }
  }

  /** Label-free code has no label to define or to jump to. */
  lemma LabelFreeHasNone(code: seq<Instr>)
    requires LabelFree(code)
    ensures forall l :: Def(l) !in code && Je(l) !in code && Jmp(l) !in code
    ensures UniqueLabels(code)
  {
  }

  /** Two pieces without a label in common define no label twice. */
  lemma UniqueJoin(a: seq<Instr>, b: seq<Instr>)
    requires UniqueLabels(a) && UniqueLabels(b)
    requires forall l | Def(l) in a :: Def(l) !in b
    ensures UniqueLabels(a + b)
  {
    var c := a + b;
    forall i, j | 0 <= i < j < |c| && c[i].Def?
      ensures c[j] != c[i]
    {
      if j < |a| {
        assert c[i] == a[i] && c[j] == a[j];
      } else if i >= |a| {
        assert c[i] == b[i - |a|] && c[j] == b[j - |a|];
      } else {
        assert c[i] == a[i] == Def(a[i].at);
        assert a[i] in a;
        assert c[j] == b[j - |a|];
        assert b[j - |a|] in b;
      }
    }
  }

  /** gen of a supported expression uses no label. */
  lemma {:induction false} ValueLabelFree(e: Node, k: nat)
    requires ValueExpr(e)
    ensures Lowerable(e) && Lower(e, k).Done? && LabelFree(Lower(e, k).value.code)
    decreases e, 1
  {
    ValuePushesOne(e, k);
    if e.Binop? && e.op == Assign {
      AssignLabelFree(e, k);
    } else if e.Binop? {
      OperatorLabelFree(e, k);
    } else if e.Call? {
      CallLabelFree(e, k);
    }
  }

  lemma {:induction false} AssignLabelFree(e: Node, k: nat)
    requires e.Binop? && e.op == Assign && ValueExpr(e)
    ensures Lowerable(e) && Lower(e, k).Done? && LabelFree(Lower(e, k).value.code)
    decreases e, 0
  {
    ValuePushesOne(e, k);
    ValueLabelFree(e.rhs, k);
    var v := Lower(e.rhs, k).value;
    var pre := [Mov(RAX, RBP), SubImm(RAX, e.lhs.offset), Push(RAX)];
    var post := [Pop(RAX), Pop(RDI), Store(RDI, RAX), Push(RAX)];
    LabelFreeJoin(pre, v.code);
    LabelFreeJoin(pre + v.code, post);
    assert Lower(e, k).value.code == pre + v.code + post;
  }

  lemma {:induction false} OperatorLabelFree(e: Node, k: nat)
    requires e.Binop? && e.op != Assign && ValueExpr(e)
    ensures Lowerable(e) && Lower(e, k).Done? && LabelFree(Lower(e, k).value.code)
    decreases e, 0
  {
    ValuePushesOne(e, k);
    ValueLabelFree(e.lhs, k);
    var lc := Lower(e.lhs, k).value;
    ValueLabelFree(e.rhs, lc.next);
    var rc := Lower(e.rhs, lc.next).value;
    OperateNet(e.op);
    var tail := Operate(OpCode(e.op).value);
    assert LabelFree(tail);
    LabelFreeJoin(lc.code, rc.code);
    LabelFreeJoin(lc.code + rc.code, tail);
    assert Lower(e, k) == LowerBinop(e, k);
  }

  lemma {:induction false} CallLabelFree(e: Node, k: nat)
    requires e.Call? && ValueExpr(e)
    ensures Lowerable(e) && Lower(e, k).Done? && LabelFree(Lower(e, k).value.code)
    decreases e, 0
  {
    ValuePushesOne(e, k);
    ArgsLabelFree(e, 0, k);
    var a := LowerArgs(e, 0, k).value;
    var pops := PopArgs(|e.args|);
    var post := [AlignStack, CallSym(e.callee), Push(RAX)];
    LabelFreeJoin(a.code, pops);
    LabelFreeJoin(a.code + pops, post);
    assert Lower(e, k).value.code == a.code + pops + post;
  }

  lemma {:induction false} ArgsLabelFree(call: Node, i: nat, k: nat)
    requires call.Call? && ValueExpr(call) && i <= |call.args|
    ensures Lowerable(call) && LowerArgs(call, i, k).Done? && LabelFree(LowerArgs(call, i, k).value.code)
    decreases call, 0, |call.args| - i
  {
    ArgsPushAll(call, i, k);
    if i < |call.args| {
      assert call.args[i] in call.args;
      ValueLabelFree(call.args[i], k);
      var a := Lower(call.args[i], k).value;
      ArgsLabelFree(call, i + 1, a.next);
      LabelFreeJoin(a.code, LowerArgs(call, i + 1, a.next).value.code);
    }
  }

  /** The code gen prints for a supported expression: one value pushed and
      no label, whatever the counter. */
  function ValueCode(e: Node): (code: seq<Instr>)
    requires ValueExpr(e)
    ensures Net(code) == 1 && LabelFree(code)
  {
    ValuePushesOne(e, 0);
    ValueLabelFree(e, 0);
    Lower(e, 0).value.code
  }

  /** `pop rax; cmp rax, 0; je target` after a condition. */
  function Test(target: Label): (code: seq<Instr>)
    ensures Net(code) == -1
    ensures forall l :: Def(l) !in code && Jmp(l) !in code && (Je(l) in code <==> l == target)
  {
    TestNet(target);
    [Pop(RAX), CmpImm(RAX, 0), Je(target)]
  }

  // ---------------------------------------------------------------- repaired generator

  /** The statements the repaired generator is stated for: `if`, `while`
      and `for` over supported expressions, blocks of them, and expression
      statements, calls included.  A `return` is left out: it leaves the
      frame rather than the statement. */
  predicate Structured(s: Node)
  {
    match s
    case If(c, t, e) => ValueExpr(c) && Structured(t) && (e.Some? ==> Structured(e.value))
    case While(c, b) => ValueExpr(c) && Structured(b)
    case For(i, g, st, b) =>
      i.Some? && g.Some? && st.Some? &&
      ValueExpr(i.value) && ValueExpr(g.value) && ValueExpr(st.value) && Structured(b)
    case Block(ss) => forall x | x in ss :: Structured(x)
    case _ => ValueExpr(s)
  }

  /** gen_stmt as evidently intended: a statement that prints labels takes
      the counter on entry and advances it before its children are
      generated, so all its labels carry its own number; every expression
      statement, a call included, has its value popped. */
  function LowerFixed(s: Node, k: nat): (r: Lowered)
    requires Structured(s)
    ensures k <= r.next
    decreases s, 1
  {
    if s.If? then FixedIf(s, k)
    else if s.While? then FixedWhile(s, k)
    else if s.For? then FixedFor(s, k)
    else if s.Block? then FixedSeq(s, 0, k)
    else Lowered(ValueCode(s) + [Pop(RAX)], k)
  }

  function FixedIf(s: Node, k: nat): (r: Lowered)
    requires s.If? && Structured(s)
    ensures k < r.next
    decreases s, 0
  {
    var yes := LowerFixed(s.thenS, k + 1);
    if s.elseS.None? then
      Lowered(ValueCode(s.cond) + Test(EndIf(k)) + yes.code + [Def(EndIf(k))], yes.next)
    else
      var no := LowerFixed(s.elseS.value, yes.next);
      Lowered(ValueCode(s.cond) + Test(Else(k)) + yes.code + [Jmp(EndIf(k)), Def(Else(k))] +
              no.code + [Def(EndIf(k))], no.next)
  }

  function FixedWhile(s: Node, k: nat): (r: Lowered)
    requires s.While? && Structured(s)
    ensures k < r.next
    decreases s, 0
  {
    var body := LowerFixed(s.body, k + 1);
    Lowered([Def(WhileL(k))] + ValueCode(s.cond) + Test(EndWhile(k)) + body.code +
            [Jmp(WhileL(k)), Def(EndWhile(k))], body.next)
  }

  function FixedFor(s: Node, k: nat): (r: Lowered)
    requires s.For? && Structured(s)
    ensures k < r.next
    decreases s, 0
  {
    var body := LowerFixed(s.body, k + 1);
    Lowered(ValueCode(s.init.value) + [Pop(RAX), Def(ForL(k))] + ValueCode(s.guard.value) +
            Test(EndFor(k)) + body.code + ValueCode(s.step.value) +
            [Pop(RAX), Jmp(ForL(k)), Def(EndFor(k))], body.next)
  }

  function FixedSeq(block: Node, i: nat, k: nat): (r: Lowered)
    requires block.Block? && Structured(block) && i <= |block.stmts|
    ensures k <= r.next
    decreases block, 0, |block.stmts| - i
  {
    if i == |block.stmts| then Lowered([], k)
    else
      assert block.stmts[i] in block.stmts;
      var s := LowerFixed(block.stmts[i], k);
      var rest := FixedSeq(block, i + 1, s.next);
      Lowered(s.code + rest.code, rest.next)
  }

  // ---------------------------------------------------------------- its labels

  /** The repaired generator defines each label once, numbers it from the
      counter's range, and defines every label it jumps to. */
  lemma {:induction false} FixedWellLabelled(s: Node, k: nat)
    requires Structured(s)
    ensures WellLabelled(LowerFixed(s, k).code, k, LowerFixed(s, k).next)
    decreases s, 1
  {
    if s.If? {
      if s.elseS.None? {
        IfLabelled(s, k);
      } else {
        IfElseLabelled(s, k);
      }
    } else if s.While? {
      WhileLabelled(s, k);
    } else if s.For? {
      ForLabelled(s, k);
    } else if s.Block? {
      SeqLabelled(s, 0, k);
    } else {
      LabelFreeJoin(ValueCode(s), [Pop(RAX)]);
      LabelFreeHasNone(ValueCode(s) + [Pop(RAX)]);
    }
  }

  lemma {:induction false} IfLabelled(s: Node, k: nat)
    requires s.If? && s.elseS.None? && Structured(s)
    ensures WellLabelled(LowerFixed(s, k).code, k, LowerFixed(s, k).next)
    decreases s, 0
  {
    var yes := LowerFixed(s.thenS, k + 1);
    FixedWellLabelled(s.thenS, k + 1);
    var v := ValueCode(s.cond);
    var t := Test(EndIf(k));
    LabelFreeHasNone(v);
    UniqueJoin(v, t);
    UniqueJoin(v + t, yes.code);
    UniqueJoin(v + t + yes.code, [Def(EndIf(k))]);
  }

  lemma {:induction false} IfElseLabelled(s: Node, k: nat)
    requires s.If? && s.elseS.Some? && Structured(s)
    ensures WellLabelled(LowerFixed(s, k).code, k, LowerFixed(s, k).next)
    decreases s, 0
  {
    var yes := LowerFixed(s.thenS, k + 1);
    FixedWellLabelled(s.thenS, k + 1);
    var no := LowerFixed(s.elseS.value, yes.next);
    FixedWellLabelled(s.elseS.value, yes.next);
    var v := ValueCode(s.cond);
    LabelFreeHasNone(v);
    var code := v + Test(Else(k)) + yes.code + [Jmp(EndIf(k)), Def(Else(k))] + no.code + [Def(EndIf(k))];
    assert LowerFixed(s, k) == Lowered(code, no.next);
    IfElseUnique(v, yes, no, k);
    IfElseClosed(v, yes, no, k);
  }

  lemma IfElseClosed(v: seq<Instr>, yes: Lowered, no: Lowered, k: nat)
    requires LabelFree(v)
    requires WellLabelled(yes.code, k + 1, yes.next) && WellLabelled(no.code, yes.next, no.next)
    requires k < yes.next <= no.next
    ensures var code := v + Test(Else(k)) + yes.code + [Jmp(EndIf(k)), Def(Else(k))] + no.code + [Def(EndIf(k))];
            NumberedIn(code, k, no.next) && JumpsDefined(code)
  {
    LabelFreeHasNone(v);
  }

  lemma IfElseUnique(v: seq<Instr>, yes: Lowered, no: Lowered, k: nat)
    requires LabelFree(v)
    requires WellLabelled(yes.code, k + 1, yes.next) && WellLabelled(no.code, yes.next, no.next)
    requires k < yes.next
    ensures UniqueLabels(v + Test(Else(k)) + yes.code + [Jmp(EndIf(k)), Def(Else(k))] + no.code + [Def(EndIf(k))])
  {
    var t := Test(Else(k));
    var mid := [Jmp(EndIf(k)), Def(Else(k))];
    LabelFreeHasNone(v);
    UniqueJoin(v, t);
    UniqueJoin(v + t, yes.code);
    UniqueJoin(v + t + yes.code, mid);
    UniqueJoin(v + t + yes.code + mid, no.code);
    UniqueJoin(v + t + yes.code + mid + no.code, [Def(EndIf(k))]);
  }

  lemma {:induction false} WhileLabelled(s: Node, k: nat)
    requires s.While? && Structured(s)
    ensures WellLabelled(LowerFixed(s, k).code, k, LowerFixed(s, k).next)
    decreases s, 0
  {
    var body := LowerFixed(s.body, k + 1);
    FixedWellLabelled(s.body, k + 1);
    var v := ValueCode(s.cond);
    LabelFreeHasNone(v);
    var code := [Def(WhileL(k))] + v + Test(EndWhile(k)) + body.code + [Jmp(WhileL(k)), Def(EndWhile(k))];
    assert LowerFixed(s, k) == Lowered(code, body.next);
    WhileUnique(v, body, k);
    WhileClosed(v, body, k);
  }

  lemma WhileClosed(v: seq<Instr>, body: Lowered, k: nat)
    requires LabelFree(v) && WellLabelled(body.code, k + 1, body.next) && k < body.next
    ensures var code := [Def(WhileL(k))] + v + Test(EndWhile(k)) + body.code + [Jmp(WhileL(k)), Def(EndWhile(k))];
            NumberedIn(code, k, body.next) && JumpsDefined(code)
  {
    LabelFreeHasNone(v);
  }

  lemma WhileUnique(v: seq<Instr>, body: Lowered, k: nat)
    requires LabelFree(v) && WellLabelled(body.code, k + 1, body.next)
    ensures UniqueLabels([Def(WhileL(k))] + v + Test(EndWhile(k)) + body.code + [Jmp(WhileL(k)), Def(EndWhile(k))])
  {
    var head := [Def(WhileL(k))];
    var t := Test(EndWhile(k));
    LabelFreeHasNone(v);
    UniqueJoin(head, v);
    UniqueJoin(head + v, t);
    UniqueJoin(head + v + t, body.code);
    UniqueJoin(head + v + t + body.code, [Jmp(WhileL(k)), Def(EndWhile(k))]);
  }

  lemma {:induction false} ForLabelled(s: Node, k: nat)
    requires s.For? && Structured(s)
    ensures WellLabelled(LowerFixed(s, k).code, k, LowerFixed(s, k).next)
    decreases s, 0
  {
    var body := LowerFixed(s.body, k + 1);
    FixedWellLabelled(s.body, k + 1);
    var v1 := ValueCode(s.init.value);
    var v2 := ValueCode(s.guard.value);
    var v3 := ValueCode(s.step.value);
    LabelFreeHasNone(v1);
    LabelFreeHasNone(v2);
    LabelFreeHasNone(v3);
    var code := v1 + [Pop(RAX), Def(ForL(k))] + v2 + Test(EndFor(k)) + body.code + v3 +
                [Pop(RAX), Jmp(ForL(k)), Def(EndFor(k))];
    assert LowerFixed(s, k) == Lowered(code, body.next);
    ForUnique(v1, v2, v3, body, k);
    ForClosed(v1, v2, v3, body, k);
  }

  lemma ForClosed(v1: seq<Instr>, v2: seq<Instr>, v3: seq<Instr>, body: Lowered, k: nat)
    requires LabelFree(v1) && LabelFree(v2) && LabelFree(v3)
    requires WellLabelled(body.code, k + 1, body.next) && k < body.next
    ensures var code := v1 + [Pop(RAX), Def(ForL(k))] + v2 + Test(EndFor(k)) + body.code + v3 +
                        [Pop(RAX), Jmp(ForL(k)), Def(EndFor(k))];
            NumberedIn(code, k, body.next) && JumpsDefined(code)
  {
    LabelFreeHasNone(v1);
    LabelFreeHasNone(v2);
    LabelFreeHasNone(v3);
  }

  lemma ForUnique(v1: seq<Instr>, v2: seq<Instr>, v3: seq<Instr>, body: Lowered, k: nat)
    requires LabelFree(v1) && LabelFree(v2) && LabelFree(v3)
    requires WellLabelled(body.code, k + 1, body.next)
    ensures UniqueLabels(v1 + [Pop(RAX), Def(ForL(k))] + v2 + Test(EndFor(k)) + body.code + v3 +
                         [Pop(RAX), Jmp(ForL(k)), Def(EndFor(k))])
  {
    var head := [Pop(RAX), Def(ForL(k))];
    var t := Test(EndFor(k));
    var tail := [Pop(RAX), Jmp(ForL(k)), Def(EndFor(k))];
    LabelFreeHasNone(v1);
    LabelFreeHasNone(v2);
    LabelFreeHasNone(v3);
    UniqueJoin(v1, head);
    UniqueJoin(v1 + head, v2);
    UniqueJoin(v1 + head + v2, t);
    UniqueJoin(v1 + head + v2 + t, body.code);
    UniqueJoin(v1 + head + v2 + t + body.code, v3);
    UniqueJoin(v1 + head + v2 + t + body.code + v3, tail);
  }

  lemma {:induction false} SeqLabelled(block: Node, i: nat, k: nat)
    requires block.Block? && Structured(block) && i <= |block.stmts|
    ensures WellLabelled(FixedSeq(block, i, k).code, k, FixedSeq(block, i, k).next)
    decreases block, 0, |block.stmts| - i
  {
    if i < |block.stmts| {
      assert block.stmts[i] in block.stmts;
      var s := LowerFixed(block.stmts[i], k);
      FixedWellLabelled(block.stmts[i], k);
      var rest := FixedSeq(block, i + 1, s.next);
      SeqLabelled(block, i + 1, s.next);
      UniqueJoin(s.code, rest.code);
    }
  }

  // ---------------------------------------------------------------- its stack

  /** Every statement of the repaired generator, a call statement included,
      leaves the stack as deep as it found it. */
  lemma {:induction false} FixedBalanced(s: Node, k: nat)
    requires Structured(s)
    ensures Net(LowerFixed(s, k).code) == 0
    decreases s, 1
  {
    if s.If? {
      var yes := LowerFixed(s.thenS, k + 1);
      FixedBalanced(s.thenS, k + 1);
      if s.elseS.None? {
        IfNetZero(ValueCode(s.cond), yes, k);
      } else {
        var no := LowerFixed(s.elseS.value, yes.next);
        FixedBalanced(s.elseS.value, yes.next);
        IfElseNetZero(ValueCode(s.cond), yes, no, k);
      }
    } else if s.While? {
      var body := LowerFixed(s.body, k + 1);
      FixedBalanced(s.body, k + 1);
      WhileNetZero(ValueCode(s.cond), body, k);
    } else if s.For? {
      var body := LowerFixed(s.body, k + 1);
      FixedBalanced(s.body, k + 1);
      ForNetZero(ValueCode(s.init.value), ValueCode(s.guard.value), ValueCode(s.step.value), body, k);
    } else if s.Block? {
      SeqBalanced(s, 0, k);
    } else {
      assert Net([Pop(RAX)]) == -1;
      NetAppend(ValueCode(s), [Pop(RAX)]);
    }
  }

  lemma IfNetZero(v: seq<Instr>, yes: Lowered, k: nat)
    requires Net(v) == 1 && Net(yes.code) == 0
    ensures Net(v + Test(EndIf(k)) + yes.code + [Def(EndIf(k))]) == 0
  {
    var t := Test(EndIf(k));
    assert Net([Def(EndIf(k))]) == 0;
    NetAppend(v, t);
    NetAppend(v + t, yes.code);
    NetAppend(v + t + yes.code, [Def(EndIf(k))]);
  }

  lemma IfElseNetZero(v: seq<Instr>, yes: Lowered, no: Lowered, k: nat)
    requires Net(v) == 1 && Net(yes.code) == 0 && Net(no.code) == 0
    ensures Net(v + Test(Else(k)) + yes.code + [Jmp(EndIf(k)), Def(Else(k))] + no.code + [Def(EndIf(k))]) == 0
  {
    var t := Test(Else(k));
    var mid := [Jmp(EndIf(k)), Def(Else(k))];
    assert Net(mid) == 0 by {
      assert Net([Def(Else(k))]) == 0;
    }
    assert Net([Def(EndIf(k))]) == 0;
    NetAppend(v, t);
    NetAppend(v + t, yes.code);
    NetAppend(v + t + yes.code, mid);
    NetAppend(v + t + yes.code + mid, no.code);
    NetAppend(v + t + yes.code + mid + no.code, [Def(EndIf(k))]);
  }

  lemma WhileNetZero(v: seq<Instr>, body: Lowered, k: nat)
    requires Net(v) == 1 && Net(body.code) == 0
    ensures Net([Def(WhileL(k))] + v + Test(EndWhile(k)) + body.code + [Jmp(WhileL(k)), Def(EndWhile(k))]) == 0
  {
    var head := [Def(WhileL(k))];
    var t := Test(EndWhile(k));
    var tail := [Jmp(WhileL(k)), Def(EndWhile(k))];
    assert Net(head) == 0;
    assert Net(tail) == 0 by {
      assert Net([Def(EndWhile(k))]) == 0;
    }
    NetAppend(head, v);
    NetAppend(head + v, t);
    NetAppend(head + v + t, body.code);
    NetAppend(head + v + t + body.code, tail);
  }

  lemma ForNetZero(v1: seq<Instr>, v2: seq<Instr>, v3: seq<Instr>, body: Lowered, k: nat)
    requires Net(v1) == 1 && Net(v2) == 1 && Net(v3) == 1 && Net(body.code) == 0
    ensures Net(v1 + [Pop(RAX), Def(ForL(k))] + v2 + Test(EndFor(k)) + body.code + v3 +
                [Pop(RAX), Jmp(ForL(k)), Def(EndFor(k))]) == 0
  {
    var head := [Pop(RAX), Def(ForL(k))];
    var t := Test(EndFor(k));
    var tail := [Pop(RAX), Jmp(ForL(k)), Def(EndFor(k))];
    assert Net(head) == -1 by {
      assert Net([Def(ForL(k))]) == 0;
    }
    assert Net(tail) == -1 by {
      assert Net([Def(EndFor(k))]) == 0;
      assert Net([Jmp(ForL(k)), Def(EndFor(k))]) == 0;
    }
    NetAppend(v1, head);
    NetAppend(v1 + head, v2);
    NetAppend(v1 + head + v2, t);
    NetAppend(v1 + head + v2 + t, body.code);
    NetAppend(v1 + head + v2 + t + body.code, v3);
    NetAppend(v1 + head + v2 + t + body.code + v3, tail);
  }

  lemma {:induction false} SeqBalanced(block: Node, i: nat, k: nat)
    requires block.Block? && Structured(block) && i <= |block.stmts|
    ensures Net(FixedSeq(block, i, k).code) == 0
    decreases block, 0, |block.stmts| - i
  {
    if i < |block.stmts| {
      assert block.stmts[i] in block.stmts;
      FixedBalanced(block.stmts[i], k);
      var s := LowerFixed(block.stmts[i], k);
      SeqBalanced(block, i + 1, s.next);
      SeqNetStep(block, i, k, s);
    }
  }

  /** A balanced statement followed by balanced statements. */
  lemma SeqNetStep(block: Node, i: nat, k: nat, s: Lowered)
    requires block.Block? && Structured(block) && i < |block.stmts| && Structured(block.stmts[i])
    requires s == LowerFixed(block.stmts[i], k) && Net(s.code) == 0
    requires Net(FixedSeq(block, i + 1, s.next).code) == 0
    ensures Net(FixedSeq(block, i, k).code) == 0
  {
    NetAppend(s.code, FixedSeq(block, i + 1, s.next).code);
  }

  // ---------------------------------------------------------------- the source's labels and stack

  /** A number, as an expression and as a statement. */
  lemma NumCode(v: int, k: nat)
    ensures Lower(Num(v), k) == Done(Lowered([MovImm(RAX, v), PushImm(v)], k))
    ensures LowerStmt(Num(v), k) == Done(Lowered([MovImm(RAX, v), PushImm(v), Pop(RAX)], k))
  {
    assert IsExpr(KindOf(Num(v)));
  }

  /** An empty block prints nothing. */
  lemma EmptyBlockCode(k: nat)
    ensures Lowerable(Block([])) && LowerStmt(Block([]), k) == Done(Lowered([], k))
  {
    assert Lower(Block([]), k) == LowerSeq(Block([]), 0, k);
    StmtIsGen(Block([]), k);
  }

  /** gen_stmt of a `while` whose condition and body have been generated. */
  lemma WhileUnfold(s: Node, k: nat, cond: Lowered, body: Lowered)
    requires s.While? && Lowerable(s)
    requires Lower(s.cond, k) == Done(cond) && LowerStmt(s.body, cond.next) == Done(body)
    ensures LowerStmt(s, k) ==
            Done(Lowered([Def(WhileL(k))] + cond.code + [Pop(RAX), CmpImm(RAX, 0), Je(EndWhile(cond.next))] +
                         body.code + [Jmp(WhileL(body.next)), Def(EndWhile(body.next))], body.next + 1))
  {
    assert Lower(s, k) == LowerWhile(s, k);
    StmtIsGen(s, k);
  }

  /** `while (v) {}` */
  function InnerWhile(v: int): Node
  {
    While(Num(v), Block([]))
  }

  /** `while (v) while (v) {}` */
  function NestedWhile(v: int): Node
  {
    While(Num(v), InnerWhile(v))
  }

  /** The inner loop from counter k: labelled k on entry and on exit. */
  lemma InnerWhileCode(v: int, k: nat) returns (code: seq<Instr>)
    ensures Lowerable(InnerWhile(v)) && LowerStmt(InnerWhile(v), k) == Done(Lowered(code, k + 1))
    ensures |code| > 0 && code[0] == Def(WhileL(k)) && Def(WhileL(k + 1)) !in code
  {
    NumCode(v, k);
    EmptyBlockCode(k);
    WhileUnfold(InnerWhile(v), k, Lowered([MovImm(RAX, v), PushImm(v)], k), Lowered([], k));
    code := [Def(WhileL(k))] + [MovImm(RAX, v), PushImm(v)] + [Pop(RAX), CmpImm(RAX, 0), Je(EndWhile(k))] +
            [] + [Jmp(WhileL(k)), Def(EndWhile(k))];
  }

  /** The outer loop around it: labelled k on entry and k + 1 on exit. */
  lemma NestedWhileCode(v: int, k: nat) returns (code: seq<Instr>)
    ensures Lowerable(NestedWhile(v)) && LowerStmt(NestedWhile(v), k) == Done(Lowered(code, k + 2))
    ensures |code| > 6 && code[0] == code[6] == Def(WhileL(k))
    ensures Jmp(WhileL(k + 1)) in code && Def(WhileL(k + 1)) !in code
  {
    var inner := InnerWhileCode(v, k);
    NumCode(v, k);
    assert Lowerable(NestedWhile(v));
    WhileUnfold(NestedWhile(v), k, Lowered([MovImm(RAX, v), PushImm(v)], k), Lowered(inner, k + 1));
    var head := [Def(WhileL(k))] + [MovImm(RAX, v), PushImm(v)] + [Pop(RAX), CmpImm(RAX, 0), Je(EndWhile(k))];
    code := head + inner + [Jmp(WhileL(k + 1)), Def(EndWhile(k + 1))];
    assert code[6] == inner[0];
  }

  /** gen gives both loops the head label `.Lwhile<k>` and sends the outer
      loop back to `.Lwhile<k+1>`, which nothing defines. */
  lemma NestedWhileLabels(v: int, k: nat)
    ensures Lowerable(NestedWhile(v)) && LowerStmt(NestedWhile(v), k).Done?
    ensures var code := LowerStmt(NestedWhile(v), k).value.code;
            !UniqueLabels(code) && !JumpsDefined(code)
  {
    var code := NestedWhileCode(v, k);
    DefinedTwice(code, 0, 6);
    JumpsNowhere(code, WhileL(k + 1));
  }

  /** `for (v; v; v) {}` */
  function ForLoop(v: int): Node
  {
    For(Some(Num(v)), Some(Num(v)), Some(Num(v)), Block([]))
  }

  /** `{ for (v; v; v) {} for (v; v; v) {} }` */
  function SiblingFors(v: int): Node
  {
    Block([ForLoop(v), ForLoop(v)])
  }

  /** One loop from counter k: its head label, numbered k, is the fourth
      instruction, and the counter is left at k. */
  lemma ForLoopCode(v: int, k: nat) returns (code: seq<Instr>)
    ensures Lowerable(ForLoop(v)) && LowerStmt(ForLoop(v), k) == Done(Lowered(code, k))
    ensures |code| > 3 && code[3] == Def(ForL(k))
  {
    var f := ForLoop(v);
    var clause := [MovImm(RAX, v), PushImm(v), Pop(RAX)];
    NumCode(v, k);
    EmptyBlockCode(k);
    code := clause + [Def(ForL(k))] + [MovImm(RAX, v), PushImm(v)] +
            [Pop(RAX), CmpImm(RAX, 0), Je(EndFor(k))] + [] + clause +
            [Jmp(ForL(k)), Def(EndFor(k))];
    assert Lower(f, k) == LowerFor(f, k) == Done(Lowered(code, k));
    StmtIsGen(f, k);
  }

  /** The block from counter k: the first loop's code twice over. */
  lemma SiblingForsCode(v: int, k: nat) returns (one: seq<Instr>)
    ensures Lowerable(SiblingFors(v)) && LowerStmt(SiblingFors(v), k) == Done(Lowered(one + one, k))
    ensures |one| > 3 && one[3] == Def(ForL(k))
  {
    var b := SiblingFors(v);
    one := ForLoopCode(v, k);
    assert b.stmts[0] == ForLoop(v) && b.stmts[1] == ForLoop(v);
    assert Lowerable(b);
    LowerSeqStep(b, 0, k);
    LowerSeqStep(b, 1, k);
    assert LowerSeq(b, 2, k) == Done(Lowered([], k));
    assert one + [] == one;
    StmtIsGen(b, k);
  }

  /** gen never advances the counter for a `for`, so two loops in one block
      both define `.Lfor<k>`. */
  lemma SiblingForLabels(v: int, k: nat)
    ensures Lowerable(SiblingFors(v)) && LowerStmt(SiblingFors(v), k).Done?
    ensures !UniqueLabels(LowerStmt(SiblingFors(v), k).value.code)
  {
    var one := SiblingForsCode(v, k);
    assert (one + one)[|one| + 3] == one[3];
    DefinedTwice(one + one, 3, |one| + 3);
  }

  /** A call without arguments, as a statement. */
  lemma CallStatementCode(name: string, k: nat)
    ensures Lowerable(Call(name, []))
    ensures LowerStmt(Call(name, []), k) == Done(Lowered([AlignStack, CallSym(name), Push(RAX)], k))
  {
    var c := Call(name, []);
    assert LowerArgs(c, 0, k) == Done(Lowered([], k));
    assert [] + PopArgs(0) + [AlignStack, CallSym(name), Push(RAX)] == [AlignStack, CallSym(name), Push(RAX)];
    assert !IsExpr(KindOf(c));
    StmtIsGen(c, k);
  }

  /** `name();` as a statement: gen pushes the result and gen_stmt, not
      finding ND_CALL among the expression kinds, leaves it there, while
      the repaired generator pops it. */
  lemma CallStatementLeavesValue(name: string, k: nat)
    ensures Lowerable(Call(name, [])) && LowerStmt(Call(name, []), k).Done?
    ensures Net(LowerStmt(Call(name, []), k).value.code) == 1
    ensures Structured(Call(name, [])) && Net(LowerFixed(Call(name, []), k).code) == 0
  {
    CallStatementCode(name, k);
    assert Net([Push(RAX)]) == 1;
    assert Net([CallSym(name), Push(RAX)]) == 1;
    FixedBalanced(Call(name, []), k);
  }
}
