/**
 * semantic.c as an object: the registered functions (func_env) and the stack
 * of visible locals (local_vars) are fields that sema_func, sema_block and
 * sema_stmt update in place.  Each method is proved to agree with the
 * Semantic function of the same role.
 */
module Analyzer {
  import opened Syntax
  import opened Semantic

  /** A method's outcome agrees with a checking function: on success the new
      state is the one computed, on failure the error is the same. */
  predicate Agrees<T(==)>(spec: Checked<T>, err: Option<SemaError>, now: T)
  {
    match spec
    case Ok(v) => err.None? && now == v
    case Err(e) => err == Some(e)
  }

  /** The error of a failed check, if any. */
  function ErrorOf<T>(r: Checked<T>): (err: Option<SemaError>)
    ensures err.Some? <==> r.Err?
    ensures err.Some? ==> err.value == r.error
  {
    match r
    case Ok(_) => None
    case Err(e) => Some(e)
  }

  class Analyzer {
    var funcEnv: seq<Func>
    var localVars: seq<Decl>

    constructor ()
      ensures funcEnv == [] && localVars == []
    {
      funcEnv := [];
      localVars := [];
    }

    /** index_of_lvar: a forward scan that remembers the last match. */
    method IndexOfLvar(name: string) returns (idx: nat)
      ensures idx == LastIndex(localVars, name)
    {
      idx := |localVars|;
      var i := 0;
      while i < |localVars|
        invariant 0 <= i <= |localVars|
        invariant idx == |localVars| || (idx < i && localVars[idx].name == name)
        invariant idx == |localVars| ==> forall j | 0 <= j < i :: localVars[j].name != name
        invariant idx < |localVars| ==> forall j | idx < j < i :: localVars[j].name != name
      {
        if localVars[i].name == name {
          idx := i;
        }
        i := i + 1;
      }
      var last := LastIndex(localVars, name);
      if idx < |localVars| && last < |localVars| {
        assert !(idx < last) && !(last < idx);
      }
    }

    /** find_lvar_sema, returning the type of the local found. */
    method FindLvar(name: string) returns (r: Checked<Type>)
      ensures r == VarType(localVars, name)
    {
      var idx := IndexOfLvar(name);
      if idx < |localVars| {
        return Ok(localVars[idx].ty);
      }
      return Err(UndefinedVariable(name));
    }

    /** find_func: the first registered function with that name. */
    method FindFunc(name: string) returns (f: Option<Func>)
      ensures f == FirstFunc(funcEnv, name)
    {
      var i := 0;
      while i < |funcEnv|
        invariant 0 <= i <= |funcEnv|
        invariant forall j | 0 <= j < i :: funcEnv[j].name != name
      {
        if funcEnv[i].name == name {
          FirstFuncAt(funcEnv, name, i);
          return Some(funcEnv[i]);
        }
        i := i + 1;
      }
      return None;
    }

    /** sema_expr.  The type is returned rather than written into the node. */
    method SemaExpr(e: Node) returns (r: Checked<Type>)
      requires Complete(e)
      decreases e, 1
      ensures r == ExprType(funcEnv, localVars, e)
    {
      match e
      case Num(_) =>
        return Ok(IntType);
      case Var(name, _) =>
        r := FindLvar(name);
      case Binop(_, _, _) =>
        r := SemaBinop(e);
      case Unop(_, _) =>
        r := SemaUnop(e);
      case Call(_, _) =>
        r := SemaCall(e);
      case Cond(_, a, b) =>
        var at := SemaExpr(a);
        if at.Err? { return at; }
        var bt := SemaExpr(b);
        if bt.Err? { return bt; }
        return Err(UnsupportedFeature);
      case Attr(b, _) =>
        var t := SemaExpr(b);
        if t.Err? { return t; }
        return Err(MissingOperand);
      case VarDecl(d, init) =>
        var vt := FindLvar(d.name);
        if vt.Err? { return vt; }
        var t := SemaExpr(init.value);
        if t.Err? { return t; }
        return Err(UnsupportedFeature);
      case Str(_) => return Err(MissingOperand);
      case Chr(_) => return Err(MissingOperand);
      case ArrayLit(_) => return Err(MissingOperand);
      case DoWhile(_, _) => return Err(MissingOperand);
      case Break => return Err(MissingOperand);
      case Continue => return Err(MissingOperand);
      case Return(_) => return Err(UnsupportedFeature);
      case If(_, _, _) => return Err(UnsupportedFeature);
      case While(_, _) => return Err(UnsupportedFeature);
      case For(_, _, _, _) => return Err(UnsupportedFeature);
      case Block(_) => return Err(UnsupportedFeature);
    }

    /** The binary cases of sema_expr: both operands left to right, then the
        operator's rule. */
    method SemaBinop(e: Node) returns (r: Checked<Type>)
      requires e.Binop? && Complete(e)
      decreases e, 0
      ensures r == ExprType(funcEnv, localVars, e)
    {
      var lt := SemaExpr(e.lhs);
      if lt.Err? { return lt; }
      var rt := SemaExpr(e.rhs);
      if rt.Err? { return rt; }
      r := BinaryType(e.op, lt.value, rt.value);
    }

    /** The unary cases of sema_expr: `&` makes a pointer, `*` needs one, and
        the rest are left without a type. */
    method SemaUnop(e: Node) returns (r: Checked<Type>)
      requires e.Unop? && Complete(e)
      decreases e, 0
      ensures r == ExprType(funcEnv, localVars, e)
    {
      var t := SemaExpr(e.operand);
      if t.Err? { return t; }
      if e.uop == Addr {
        r := Ok(PtrTo(t.value));
      } else if e.uop == Deref {
        r := if t.value.PtrTo? then Ok(t.value.to) else Err(DerefNonPointer);
      } else {
        r := Err(MissingOperand);
      }
    }

    /** The CALL case of sema_expr: look the callee up, compare the argument
        count, then analyse every argument. */
    method SemaCall(e: Node) returns (r: Checked<Type>)
      requires e.Call? && Complete(e)
      decreases e, 0
      ensures r == ExprType(funcEnv, localVars, e)
    {
      var f := FindFunc(e.callee);
      if f.None? { return Err(UndefinedFunction(e.callee)); }
      if |e.args| != |f.value.params| { return Err(ArgumentCount(e.callee)); }
      var i := 0;
      while i < |e.args|
        invariant 0 <= i <= |e.args|
        invariant ArgsCheck(funcEnv, localVars, e, 0) == ArgsCheck(funcEnv, localVars, e, i)
      {
        var t := SemaExpr(e.args[i]);
        if t.Err? { return Err(t.error); }
        i := i + 1;
      }
      return Ok(f.value.retType);
    }

    /** The declaration case of sema_stmt: a name already in the current
        scope is refused; otherwise the initializer is analysed and the
        declaration pushed. */
    method SemaDecl(s: Node, scopeStart: nat) returns (err: Option<SemaError>)
      requires s.VarDecl? && Complete(s)
      modifies this`localVars
      decreases s, 1
      ensures Agrees(StmtCheck(funcEnv, old(localVars), scopeStart, s), err, localVars)
    {
      var idx := IndexOfLvar(s.decl.name);
      if scopeStart <= idx && idx < |localVars| { return Some(DuplicateVariable(s.decl.name)); }
      var t := SemaExpr(s.init.value);
      if t.Err? { return Some(t.error); }
      localVars := localVars + [s.decl];
      return None;
    }

    /** The IF case of sema_stmt: the condition, then each branch in the
        scope the previous one left. */
    method SemaIf(s: Node, scopeStart: nat) returns (err: Option<SemaError>)
      requires s.If? && Complete(s)
      modifies this`localVars
      decreases s, 1
      ensures Agrees(StmtCheck(funcEnv, old(localVars), scopeStart, s), err, localVars)
    {
      var t := SemaExpr(s.cond);
      if t.Err? { return Some(t.error); }
      err := SemaStmt(s.thenS, scopeStart);
      if err.Some? || s.elseS.None? { return; }
      err := SemaStmt(s.elseS.value, scopeStart);
    }

    /** The WHILE case of sema_stmt: the condition, then the body. */
    method SemaWhile(s: Node, scopeStart: nat) returns (err: Option<SemaError>)
      requires s.While? && Complete(s)
      modifies this`localVars
      decreases s, 1
      ensures Agrees(StmtCheck(funcEnv, old(localVars), scopeStart, s), err, localVars)
    {
      var t := SemaExpr(s.cond);
      if t.Err? { return Some(t.error); }
      err := SemaStmt(s.body, scopeStart);
    }

    /** The FOR case of sema_stmt: the condition, the initializer and the
        step, in that order, then the body. */
    method SemaFor(s: Node, scopeStart: nat) returns (err: Option<SemaError>)
      requires s.For? && Complete(s)
      modifies this`localVars
      decreases s, 1
      ensures Agrees(StmtCheck(funcEnv, old(localVars), scopeStart, s), err, localVars)
    {
      var t := SemaExpr(s.guard.value);
      if t.Err? { return Some(t.error); }
      t := SemaExpr(s.init.value);
      if t.Err? { return Some(t.error); }
      t := SemaExpr(s.step.value);
      if t.Err? { return Some(t.error); }
      err := SemaStmt(s.body, scopeStart);
    }

    /** sema_stmt: declarations push onto local_vars; nothing else but a
        nested block changes it, and a block puts it back. */
    method SemaStmt(s: Node, scopeStart: nat) returns (err: Option<SemaError>)
      requires Complete(s)
      modifies this`localVars
      decreases s, 2
      ensures Agrees(StmtCheck(funcEnv, old(localVars), scopeStart, s), err, localVars)
    {
      if s.VarDecl? {
        err := SemaDecl(s, scopeStart);
      } else if s.Return? {
        var t := SemaExpr(s.value.value);
        err := ErrorOf(t);
      } else if s.If? {
        err := SemaIf(s, scopeStart);
      } else if s.While? {
        err := SemaWhile(s, scopeStart);
      } else if s.For? {
        err := SemaFor(s, scopeStart);
      } else if s.Block? {
        err := SemaBlock(s);
      } else {
        var t := SemaExpr(s);
        err := ErrorOf(t);
      }
    }

    /** sema_block: remembers the stack height, analyses the statements in
        order, then pops back down to that height. */
    method SemaBlock(block: Node) returns (err: Option<SemaError>)
      requires block.Block? && Complete(block)
      modifies this`localVars
      decreases block, 1
      ensures Agrees(BlockCheck(funcEnv, old(localVars), block), err, localVars)
      ensures err.None? ==> localVars == old(localVars)
    {
      var scopeStart := |localVars|;
      var i := 0;
      while i < |block.stmts|
        invariant 0 <= i <= |block.stmts|
        invariant StmtsCheck(funcEnv, old(localVars), scopeStart, block, 0) ==
                  StmtsCheck(funcEnv, localVars, scopeStart, block, i)
      {
        err := SemaStmt(block.stmts[i], scopeStart);
        if err.Some? { return; }
        i := i + 1;
      }
      ghost var inner := localVars;
      while |localVars| > scopeStart
        invariant scopeStart <= |localVars| <= |inner| && localVars == inner[..|localVars|]
      {
        localVars := localVars[..|localVars| - 1];
      }
      return None;
    }

    /** The duplicate-parameter test of sema_func as written: the names are
        compared over the length of the earlier one. */
    method DuplicateParam(params: seq<Decl>) returns (dup: Option<string>)
      ensures dup == PrefixDuplicateFrom(params, 0)
    {
      var i := 0;
      while i < |params|
        invariant 0 <= i <= |params|
        invariant PrefixDuplicateFrom(params, 0) == PrefixDuplicateFrom(params, i)
      {
        var clash := ClashesLater(params, i);
        if clash {
          return Some(params[i].name);
        }
        i := i + 1;
      }
      return None;
    }

    /** The inner loop of the duplicate test: whether the i-th name clashes
        with a later one. */
    method ClashesLater(params: seq<Decl>, i: nat) returns (clash: bool)
      requires i < |params|
      ensures clash <==> exists j | i < j < |params| :: Clashes(params[i].name, params[j].name)
    {
      var j := i + 1;
      while j < |params|
        invariant i + 1 <= j <= |params|
        invariant forall k | i < k < j :: !Clashes(params[i].name, params[k].name)
      {
        if Clashes(params[i].name, params[j].name) {
          return true;
        }
        j := j + 1;
      }
      return false;
    }

    /** sema_func: refuses repeated parameter names, registers the function,
        seeds local_vars with its parameters in order and analyses its body. */
    method SemaFunc(f: Func) returns (err: Option<SemaError>)
      requires Complete(Block(f.body))
      modifies this
      ensures Agrees(FuncCheck(old(funcEnv), f), err, funcEnv)
      ensures err.None? ==> localVars == f.params
    {
      var dup := DuplicateParam(f.params);
      if dup.Some? { return Some(DuplicateParameter(dup.value)); }
      funcEnv := funcEnv + [f];
      localVars := [];
      var i := 0;
      while i < |f.params|
        invariant 0 <= i <= |f.params| && localVars == f.params[..i]
        invariant funcEnv == old(funcEnv) + [f]
      {
        localVars := localVars + [f.params[i]];
        i := i + 1;
      }
      assert localVars == f.params;
      err := SemaBlock(Block(f.body));
    }
  }
}
