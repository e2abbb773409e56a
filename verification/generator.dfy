/**
 * codegen.c as an object: the assembly printed so far (out) and the global
 * label counter (label_num) are fields that gen and gen_stmt update in
 * place.  Each method is proved to append exactly the instructions the
 * Codegen function of the same role computes and to leave the counter where
 * that function says.
 */
module Generator {
  import opened Syntax
  import opened Codegen

  /** A method's outcome agrees with a lowering function: on success the
      output grew by the code computed and the counter holds its next value;
      on failure the error is the same. */
  predicate Emits(spec: LResult, err: Option<GenError>, before: seq<Instr>, after: seq<Instr>, counter: nat)
  {
    match spec
    case Done(l) => err.None? && after == before + l.code && counter == l.next
    case Fail(e) => err == Some(e)
  }

  /** Emitting the pieces of a fragment one after another emits the fragment. */
  lemma Regroup(before: seq<Instr>, a: seq<Instr>, b: seq<Instr>, c: seq<Instr>)
    ensures before + a + b + c == before + (a + b + c)
  {
  }

  class Generator {
    var out: seq<Instr>
    var labelNum: nat

    constructor ()
      ensures out == [] && labelNum == 0
    {
      out := [];
      labelNum := 0;
    }

    /** is_expr: a linear search of expr_kinds. */
    method IsExprKind(k: NodeKind) returns (b: bool)
      ensures b == IsExpr(k)
    {
      ExprKindTableIsSet(k);
      var i := 0;
      while i < |ExprKindTable|
        invariant 0 <= i <= |ExprKindTable|
        invariant k !in ExprKindTable[..i]
      {
        if ExprKindTable[i] == k {
          return true;
        }
        assert ExprKindTable[..i + 1] == ExprKindTable[..i] + [ExprKindTable[i]];
        i := i + 1;
      }
      assert ExprKindTable[..i] == ExprKindTable;
      return false;
    }

    /** gen_stmt: gen, then `pop rax` for a kind in expr_kinds. */
    method GenStmt(n: Node) returns (err: Option<GenError>)
      requires Lowerable(n)
      modifies this
      ensures Emits(LowerStmt(n, old(labelNum)), err, old(out), out, labelNum)
      decreases n, 2
    {
      err := Gen(n);
      if err.Some? { return; }
      var popped := IsExprKind(KindOf(n));
      if popped {
        out := out + [Pop(RAX)];
      }
    }

    /** gen */
    method Gen(n: Node) returns (err: Option<GenError>)
      requires Lowerable(n)
      modifies this
      ensures Emits(Lower(n, old(labelNum)), err, old(out), out, labelNum)
      decreases n, 1
    {
      if n.Num? {
        out := out + [MovImm(RAX, n.val), PushImm(n.val)];
        err := None;
      } else if n.Var? {
        out := out + [Mov(RAX, RBP), SubImm(RAX, n.offset), Load(RAX, RAX), Push(RAX)];
        err := None;
      } else if n.Binop? && n.op == Assign {
        err := GenAssign(n);
      } else if n.Return? {
        err := GenReturn(n);
      } else if n.If? {
        err := GenIf(n);
      } else if n.While? {
        err := GenWhile(n);
      } else if n.For? {
        err := GenFor(n);
      } else if n.Block? {
        err := GenBlock(n);
      } else if n.Call? {
        err := GenCall(n);
      } else if n.Binop? {
        err := GenBinop(n);
      } else {
        err := GenRejected(n);
      }
    }

    /** An assignment: the variable's address, the value, the store; the
        value stays on the stack. */
    method GenAssign(n: Node) returns (err: Option<GenError>)
      requires n.Binop? && n.op == Assign && Lowerable(n)
      modifies this
      ensures Emits(Lower(n, old(labelNum)), err, old(out), out, labelNum)
      decreases n, 0
    {
      if !n.lhs.Var? {
        return Some(NotLvalue);
      }
      out := out + [Mov(RAX, RBP), SubImm(RAX, n.lhs.offset), Push(RAX)];
      err := Gen(n.rhs);
      if err.Some? { return; }
      out := out + [Pop(RAX), Pop(RDI), Store(RDI, RAX), Push(RAX)];
    }

    method GenReturn(n: Node) returns (err: Option<GenError>)
      requires n.Return? && Lowerable(n)
      modifies this
      ensures Emits(Lower(n, old(labelNum)), err, old(out), out, labelNum)
      decreases n, 0
    {
      err := Gen(n.value.value);
      if err.Some? { return; }
      out := out + Epilogue;
    }

    /** `if`: every label is printed with label_num as it is at that point. */
    method GenIf(n: Node) returns (err: Option<GenError>)
      requires n.If? && Lowerable(n)
      modifies this
      ensures Emits(Lower(n, old(labelNum)), err, old(out), out, labelNum)
      decreases n, 0, 1
    {
      if n.elseS.None? {
        err := GenIfThen(n);
      } else {
        err := GenIfElse(n);
      }
    }

    /** `if` without `else`. */
    method GenIfThen(n: Node) returns (err: Option<GenError>)
      requires n.If? && n.elseS.None? && Lowerable(n)
      modifies this
      ensures Emits(Lower(n, old(labelNum)), err, old(out), out, labelNum)
      decreases n, 0, 0
    {
      assert Lower(n, labelNum) == LowerIf(n, labelNum);
      err := Gen(n.cond);
      if err.Some? { return; }
      ghost var cond := Lower(n.cond, old(labelNum)).value;
      out := out + [Pop(RAX), CmpImm(RAX, 0), Je(EndIf(labelNum))];
      err := GenStmt(n.thenS);
      if err.Some? { return; }
      ghost var yes := LowerStmt(n.thenS, cond.next).value;
      out := out + [Def(EndIf(labelNum))];
      labelNum := labelNum + 1;
      assert out == old(out) + (cond.code + [Pop(RAX), CmpImm(RAX, 0), Je(EndIf(cond.next))] + yes.code +
                                [Def(EndIf(yes.next))]);
    }

    /** `if` with `else`. */
    method GenIfElse(n: Node) returns (err: Option<GenError>)
      requires n.If? && n.elseS.Some? && Lowerable(n)
      modifies this
      ensures Emits(Lower(n, old(labelNum)), err, old(out), out, labelNum)
      decreases n, 0, 0
    {
      assert Lower(n, labelNum) == LowerIf(n, labelNum);
      err := Gen(n.cond);
      if err.Some? { return; }
      ghost var cond := Lower(n.cond, old(labelNum)).value;
      out := out + [Pop(RAX), CmpImm(RAX, 0), Je(Else(labelNum))];
      err := GenStmt(n.thenS);
      if err.Some? { return; }
      ghost var yes := LowerStmt(n.thenS, cond.next).value;
      out := out + [Jmp(EndIf(labelNum)), Def(Else(labelNum))];
      ghost var mid := out;
      assert mid == old(out) + (cond.code + [Pop(RAX), CmpImm(RAX, 0), Je(Else(cond.next))] + yes.code +
                                [Jmp(EndIf(yes.next)), Def(Else(yes.next))]);
      err := GenStmt(n.elseS.value);
      if err.Some? { return; }
      ghost var no := LowerStmt(n.elseS.value, yes.next).value;
      out := out + [Def(EndIf(labelNum))];
      labelNum := labelNum + 1;
      assert out == mid + no.code + [Def(EndIf(no.next))];
    }

    method GenWhile(n: Node) returns (err: Option<GenError>)
      requires n.While? && Lowerable(n)
      modifies this
      ensures Emits(Lower(n, old(labelNum)), err, old(out), out, labelNum)
      decreases n, 0
    {
      assert Lower(n, labelNum) == LowerWhile(n, labelNum);
      out := out + [Def(WhileL(labelNum))];
      err := Gen(n.cond);
      if err.Some? { return; }
      out := out + [Pop(RAX), CmpImm(RAX, 0), Je(EndWhile(labelNum))];
      err := GenStmt(n.body);
      if err.Some? { return; }
      out := out + [Jmp(WhileL(labelNum)), Def(EndWhile(labelNum))];
      labelNum := labelNum + 1;
    }

    /** `for`: the counter is read but never advanced. */
    method GenFor(n: Node) returns (err: Option<GenError>)
      requires n.For? && Lowerable(n)
      modifies this
      ensures Emits(Lower(n, old(labelNum)), err, old(out), out, labelNum)
      decreases n, 0
    {
      assert Lower(n, labelNum) == LowerFor(n, labelNum);
      err := GenStmt(n.init.value);
      if err.Some? { return; }
      out := out + [Def(ForL(labelNum))];
      err := Gen(n.guard.value);
      if err.Some? { return; }
      out := out + [Pop(RAX), CmpImm(RAX, 0), Je(EndFor(labelNum))];
      err := GenStmt(n.body);
      if err.Some? { return; }
      err := GenStmt(n.step.value);
      if err.Some? { return; }
      out := out + [Jmp(ForL(labelNum)), Def(EndFor(labelNum))];
    }

    /** A block: gen_stmt on each statement in order. */
    method GenBlock(n: Node) returns (err: Option<GenError>)
      requires n.Block? && Lowerable(n)
      modifies this
      ensures Emits(Lower(n, old(labelNum)), err, old(out), out, labelNum)
      decreases n, 0
    {
      ghost var done := [];
      var i := 0;
      while i < |n.stmts|
        invariant 0 <= i <= |n.stmts| && out == old(out) + done
        invariant LowerSeq(n, 0, old(labelNum)) == After(done, LowerSeq(n, i, labelNum))
      {
        LowerSeqStep(n, i, labelNum);
        ghost var before := out;
        err := GenStmt(n.stmts[i]);
        if err.Some? { return; }
        AfterAfter(done, out[|before|..], LowerSeq(n, i + 1, labelNum));
        done := done + out[|before|..];
        i := i + 1;
      }
      return None;
    }

    /** A call: the arguments left to right, the pops into arg_regs from the
        last down to the first, the aligned call, the result pushed. */
    method GenCall(n: Node) returns (err: Option<GenError>)
      requires n.Call? && Lowerable(n)
      modifies this
      ensures Emits(Lower(n, old(labelNum)), err, old(out), out, labelNum)
      decreases n, 0, 1
    {
      err := GenArgs(n);
      if err.Some? { return; }
      EmitPops(|n.args|);
      out := out + [AlignStack, CallSym(n.callee), Push(RAX)];
    }

    /** The arguments of a call, left to right. */
    method GenArgs(n: Node) returns (err: Option<GenError>)
      requires n.Call? && Lowerable(n)
      modifies this
      ensures Emits(LowerArgs(n, 0, old(labelNum)), err, old(out), out, labelNum)
      decreases n, 0, 0
    {
      ghost var done := [];
      var i := 0;
      while i < |n.args|
        invariant 0 <= i <= |n.args| && out == old(out) + done
        invariant LowerArgs(n, 0, old(labelNum)) == After(done, LowerArgs(n, i, labelNum))
      {
        LowerArgsStep(n, i, labelNum);
        ghost var before := out;
        err := Gen(n.args[i]);
        if err.Some? { return; }
        AfterAfter(done, out[|before|..], LowerArgs(n, i + 1, labelNum));
        done := done + out[|before|..];
        i := i + 1;
      }
      return None;
    }

    /** The pops of a call, from arg_regs[count-1] down to arg_regs[0]. */
    method EmitPops(count: nat)
      requires count <= |ArgRegs|
      modifies this`out
      ensures out == old(out) + PopArgs(count)
    {
      var j := count;
      while j > 0
        invariant 0 <= j <= count
        invariant out == old(out) + PopArgs(count)[..count - j]
      {
        j := j - 1;
        out := out + [Pop(ArgRegs[j])];
        assert PopArgs(count)[..count - j] == PopArgs(count)[..count - j - 1] + [Pop(ArgRegs[j])];
      }
      assert PopArgs(count)[..count] == PopArgs(count);
    }

    /** The arithmetic and comparison operators. */
    method GenBinop(n: Node) returns (err: Option<GenError>)
      requires n.Binop? && n.op != Assign && Lowerable(n)
      modifies this
      ensures Emits(Lower(n, old(labelNum)), err, old(out), out, labelNum)
      decreases n, 0
    {
      assert Lower(n, labelNum) == LowerBinop(n, labelNum);
      err := Gen(n.lhs);
      if err.Some? { return; }
      ghost var lc := Lower(n.lhs, old(labelNum)).value;
      err := Gen(n.rhs);
      if err.Some? { return; }
      ghost var rc := Lower(n.rhs, lc.next).value;
      assert out == old(out) + lc.code + rc.code;
      var code := OpCode(n.op);
      if code.Err? { return Some(code.error); }
      var tail := code.value;
      Regroup(old(out), lc.code, rc.code, Operate(tail));
      out := out + Operate(tail);
    }

    /** Kinds without a rule: their children are generated, then the
        unreachable error or a NULL child ends generation. */
    method GenRejected(n: Node) returns (err: Option<GenError>)
      requires Lowerable(n)
      requires !(n.Num? || n.Var? || n.Binop? || n.Return? || n.If? || n.While? || n.For? || n.Block? || n.Call?)
      modifies this
      ensures Emits(Lower(n, old(labelNum)), err, old(out), out, labelNum)
      decreases n, 0
    {
      match n
      case VarDecl(_, init) =>
        err := Gen(init.value);
        if err.Some? { return; }
        return Some(Unreachable);
      case Cond(_, a, b) =>
        err := Gen(a);
        if err.Some? { return; }
        err := Gen(b);
        if err.Some? { return; }
        return Some(Unreachable);
      case Unop(_, e) =>
        err := Gen(e);
        if err.Some? { return; }
        return Some(MissingOperand);
      case Attr(b, _) =>
        err := Gen(b);
        if err.Some? { return; }
        return Some(MissingOperand);
      case _ =>
        return Some(MissingOperand);
    }
  }
}
