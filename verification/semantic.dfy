/**
 * The semantic pass of semantic.c as functions: type equivalence, variable
 * resolution on the local-variable stack, function lookup, the typing table of
 * expressions, and the scope discipline of statements, blocks and functions.
 * The imperative Analyzer class is proved to agree with them.
 *
 * Where the source reads a child that the parser left NULL (the operand slot
 * of a string, a character, `sizeof`, `!`, a member access, an array literal,
 * `break`, `continue`, `do`), the model reports MissingOperand.
 */
module Semantic {
  import opened Syntax

  datatype SemaError =
    | DuplicateParameter(param: string)
    | DuplicateVariable(var_: string)
    | UndefinedVariable(use: string)
    | TypeMismatch                 // assignment only
    | DerefNonPointer
    | UndefinedFunction(callee: string)
    | ArgumentCount(callee: string)
    | UnsupportedAddition          // also reported for `*` and `/`
    | UnsupportedSubtraction
    | UnsupportedFeature
    | MissingOperand               // the source dereferences a NULL child

  datatype Checked<T> = Ok(value: T) | Err(error: SemaError) {
    predicate IsFailure() { Err? }
    function PropagateFailure<U>(): Checked<U> requires Err? { Err(error) }
    function Extract(): T requires Ok? { value }
  }

  // ---------------------------------------------------------------- types

  /** The `ty` tag of a Type. */
  datatype Tag = IntTag | CharTag | PtrTag | ArrayTag | StructTag

  function TagOf(t: Type): Tag
  {
    match t
    case IntType => IntTag
    case CharType => CharTag
    case PtrTo(_) => PtrTag
    case ArrayOf(_, _) => ArrayTag
    case StructType(_, _) => StructTag
  }

  /** eq_type: pointers compare their pointees; anything else compares tags. */
  function EqType(a: Type, b: Type): bool
  {
    if a.PtrTo? && b.PtrTo? then EqType(a.to, b.to) else TagOf(a) == TagOf(b)
  }

  /** The number of pointer layers and the type under them. */
  function Depth(t: Type): nat
  {
    if t.PtrTo? then 1 + Depth(t.to) else 0
  }

  function Base(t: Type): (b: Type)
    ensures !b.PtrTo?
  {
    if t.PtrTo? then Base(t.to) else t
  }

  /** eq_type holds exactly when both types have the same number of pointer
      layers over bases with the same tag: array lengths, struct members and
      element types under an array are never compared. */
  lemma {:induction false} EqTypeShape(a: Type, b: Type)
    ensures EqType(a, b) <==> Depth(a) == Depth(b) && TagOf(Base(a)) == TagOf(Base(b))
  {
    if a.PtrTo? && b.PtrTo? {
      EqTypeShape(a.to, b.to);
    }
  }

  /** eq_type is an equivalence relation. */
  lemma EqTypeEquivalence(a: Type, b: Type, d: Type)
    ensures EqType(a, a)
    ensures EqType(a, b) ==> EqType(b, a)
    ensures EqType(a, b) && EqType(b, d) ==> EqType(a, d)
  {
    EqTypeShape(a, a);
    EqTypeShape(a, b);
    EqTypeShape(b, a);
    EqTypeShape(b, d);
    EqTypeShape(a, d);
  }

  /** is_int and is_ptr test the tag. */
  predicate IsInt(t: Type) { t.IntType? }
  predicate IsPtr(t: Type) { t.PtrTo? }

  // ---------------------------------------------------------------- lookup

  /** index_of_lvar: the index of the last local with that name, or the
      length of the stack when there is none. */
  function LastIndex(locals: seq<Decl>, name: string): (i: nat)
    ensures i <= |locals|
    ensures i < |locals| ==> locals[i].name == name
    ensures forall j | i < j < |locals| :: locals[j].name != name
    ensures i == |locals| ==> forall j | 0 <= j < |locals| :: locals[j].name != name
  {
    if |locals| == 0 then 0
    else if locals[|locals| - 1].name == name then |locals| - 1
    else
      var i := LastIndex(locals[..|locals| - 1], name);
      if i == |locals| - 1 then |locals| else i
  }

  /** find_func: the first registered function with that name. */
  function FirstFunc(funcs: seq<Func>, name: string): (r: Option<Func>)
    ensures r.Some? ==> r.value in funcs && r.value.name == name
    ensures r.None? <==> forall f | f in funcs :: f.name != name
    ensures r.Some? ==> exists i | 0 <= i < |funcs| :: funcs[i] == r.value &&
                          forall j | 0 <= j < i :: funcs[j].name != name
  {
    if |funcs| == 0 then None
    else if funcs[0].name == name then Some(funcs[0])
    else
      var r := FirstFunc(funcs[1..], name);
      assert forall j | 0 <= j < |funcs| - 1 :: funcs[1..][j] == funcs[j + 1];
      r
  }

  // ---------------------------------------------------------------- expressions

  /** find_lvar_sema: the type of the innermost local of that name. */
  function VarType(locals: seq<Decl>, name: string): (r: Checked<Type>)
    ensures r.Ok? <==> exists j | 0 <= j < |locals| :: locals[j].name == name
    ensures r.Err? ==> r.error == UndefinedVariable(name)
  {
    var i := LastIndex(locals, name);
    if i < |locals| then Ok(locals[i].ty) else Err(UndefinedVariable(name))
  }

  /** The typing table after both operands have been analysed; an
      assignment needs equal types and has its left side's. */
  function BinaryType(op: BinOp, lt: Type, rt: Type): Checked<Type>
  {
    match op
    case Assign => if EqType(lt, rt) then Ok(lt) else Err(TypeMismatch)
    case Add =>
      if IsInt(lt) && IsInt(rt) then Ok(IntType)
      else if IsPtr(lt) && IsInt(rt) then Ok(lt)
      else if IsInt(lt) && IsPtr(rt) then Ok(rt)
      else Err(UnsupportedAddition)
    case Sub =>
      if IsInt(lt) && IsInt(rt) then Ok(IntType)
      else if IsPtr(lt) && IsInt(rt) then Ok(lt)
      else Err(UnsupportedSubtraction)
    case Mul => if IsInt(lt) && IsInt(rt) then Ok(IntType) else Err(UnsupportedAddition)
    case Div => if IsInt(lt) && IsInt(rt) then Ok(IntType) else Err(UnsupportedAddition)
    case Eq => Ok(IntType)
    case Neq => Ok(IntType)
    case Lt => Ok(IntType)
    case Lte => Ok(IntType)
    case _ => Err(UnsupportedFeature)
  }

  /** sema_expr: the type the source writes into the node, or the error it
      reports.  Children are analysed left to right before the node's own
      rule, as in the source. */
  function ExprType(funcs: seq<Func>, locals: seq<Decl>, e: Node): Checked<Type>
    requires Complete(e)
    decreases e
  {
    match e
    case Num(_) => Ok(IntType)
    case Var(name, _) => VarType(locals, name)
    case Unop(Addr, x) =>
      var t :- ExprType(funcs, locals, x);
      Ok(PtrTo(t))
    case Unop(Deref, x) =>
      var t :- ExprType(funcs, locals, x);
      if t.PtrTo? then Ok(t.to) else Err(DerefNonPointer)
    case Call(name, args) =>
      var callee := FirstFunc(funcs, name);
      if callee.None? then Err(UndefinedFunction(name))
      else if |args| != |callee.value.params| then Err(ArgumentCount(name))
      else
        var _ :- ArgsCheck(funcs, locals, e, 0);
        Ok(callee.value.retType)
    case Binop(op, l, r) =>
      var lt :- ExprType(funcs, locals, l);
      var rt :- ExprType(funcs, locals, r);
      BinaryType(op, lt, rt)
    case Cond(_, a, b) =>
      // The condition sits outside lhs/rhs and is never analysed.
      var _ :- ExprType(funcs, locals, a);
      var _ :- ExprType(funcs, locals, b);
      Err(UnsupportedFeature)
    case Unop(_, x) =>
      var _ :- ExprType(funcs, locals, x);
      Err(MissingOperand)
    case Attr(b, _) =>
      var _ :- ExprType(funcs, locals, b);
      Err(MissingOperand)
    case VarDecl(d, init) =>
      // A declaration in the first clause of a `for`.
      var _ :- VarType(locals, d.name);
      var _ :- ExprType(funcs, locals, init.value);
      Err(UnsupportedFeature)
    case Str(_) => Err(MissingOperand)
    case Chr(_) => Err(MissingOperand)
    case ArrayLit(_) => Err(MissingOperand)
    case DoWhile(_, _) => Err(MissingOperand)
    case Break => Err(MissingOperand)
    case Continue => Err(MissingOperand)
    // Statements the parser never places in an expression position.
    case Return(_) => Err(UnsupportedFeature)
    case If(_, _, _) => Err(UnsupportedFeature)
    case While(_, _) => Err(UnsupportedFeature)
    case For(_, _, _, _) => Err(UnsupportedFeature)
    case Block(_) => Err(UnsupportedFeature)
  }

  /** The arguments of a call from the i-th on, left to right; their types are
      not compared with the parameters. */
  function ArgsCheck(funcs: seq<Func>, locals: seq<Decl>, call: Node, i: nat): (r: Checked<()>)
    requires call.Call? && Complete(call) && i <= |call.args|
    ensures r.Ok? <==> forall k | i <= k < |call.args| :: ExprType(funcs, locals, call.args[k]).Ok?
    decreases call, |call.args| - i
  {
    if i == |call.args| then Ok(())
    else
      var _ :- ExprType(funcs, locals, call.args[i]);
      ArgsCheck(funcs, locals, call, i + 1)
  }

  // ---------------------------------------------------------------- statements

  /** sema_stmt: the local-variable stack after the statement.  Declarations
      push; blocks restore; `if`, `while` and `for` bodies that are not blocks
      push into the enclosing scope.  The type equality checked for a
      declaration or a `return` is discarded by the source, so it never fails. */
  function StmtCheck(funcs: seq<Func>, locals: seq<Decl>, scopeStart: nat, s: Node): (r: Checked<seq<Decl>>)
    requires Complete(s)
    ensures r.Ok? ==> |locals| <= |r.value| && r.value[..|locals|] == locals
    decreases s, 2, 0
  {
    match s
    case VarDecl(d, init) =>
      var i := LastIndex(locals, d.name);
      if scopeStart <= i < |locals| then Err(DuplicateVariable(d.name))
      else
        var _ :- ExprType(funcs, locals, init.value);
        Ok(locals + [d])
    case Return(v) =>
      var _ :- ExprType(funcs, locals, v.value);
      Ok(locals)
    case If(c, t, e) =>
      var _ :- ExprType(funcs, locals, c);
      var afterThen :- StmtCheck(funcs, locals, scopeStart, t);
      if e.None? then Ok(afterThen)
      else
        var r := StmtCheck(funcs, afterThen, scopeStart, e.value);
        assert r.Ok? ==> r.value[..|locals|] == r.value[..|afterThen|][..|locals|];
        r
    case While(c, b) =>
      var _ :- ExprType(funcs, locals, c);
      StmtCheck(funcs, locals, scopeStart, b)
    case For(init, guard, step, b) =>
      var _ :- ExprType(funcs, locals, guard.value);
      var _ :- ExprType(funcs, locals, init.value);
      var _ :- ExprType(funcs, locals, step.value);
      StmtCheck(funcs, locals, scopeStart, b)
    case Block(_) =>
      var _ :- BlockCheck(funcs, locals, s);
      Ok(locals)
    case _ =>
      // Everything else goes to sema_expr, which keeps the stack.
      Keeping(ExprType(funcs, locals, s), locals)
  }

  /** An expression statement: its error, or the stack unchanged. */
  function Keeping(t: Checked<Type>, locals: seq<Decl>): (r: Checked<seq<Decl>>)
    ensures r.Ok? <==> t.Ok?
    ensures r.Ok? ==> r.value == locals
    ensures r.Err? ==> r.error == t.error
  {
    match t
    case Ok(_) => Ok(locals)
    case Err(e) => Err(e)
  }

  /** sema_block: the statements in order, each with the stack height on entry
      as the start of the current scope; afterwards the stack is cut back to
      that height, which is exactly the stack it started with. */
  function BlockCheck(funcs: seq<Func>, locals: seq<Decl>, block: Node): (r: Checked<seq<Decl>>)
    requires block.Block? && Complete(block)
    ensures r.Ok? ==> r.value == locals
    decreases block, 1, 0
  {
    var inner :- StmtsCheck(funcs, locals, |locals|, block, 0);
    Ok(inner[..|locals|])
  }

  /** The statements of a block from the i-th on. */
  function StmtsCheck(funcs: seq<Func>, locals: seq<Decl>, scopeStart: nat, block: Node, i: nat)
    : (r: Checked<seq<Decl>>)
    requires block.Block? && Complete(block) && i <= |block.stmts|
    ensures r.Ok? ==> |locals| <= |r.value| && r.value[..|locals|] == locals
    decreases block, 0, |block.stmts| - i
  {
    if i == |block.stmts| then Ok(locals)
    else
      var next :- StmtCheck(funcs, locals, scopeStart, block.stmts[i]);
      var r := StmtsCheck(funcs, next, scopeStart, block, i + 1);
      assert r.Ok? ==> r.value[..|locals|] == r.value[..|next|][..|locals|];
      r
  }

  // ---------------------------------------------------------------- functions

  /** Two distinct parameters with the same name. */
  predicate HasDuplicate(params: seq<Decl>)
  {
    exists i, j | 0 <= i < j < |params| :: params[i].name == params[j].name
  }

  /** sema_func: the parameters pass the duplicate test as written, the
      function is registered before its body is analysed, and the body starts
      from exactly the parameters. */
  function FuncCheck(funcs: seq<Func>, f: Func): (r: Checked<seq<Func>>)
    requires Complete(Block(f.body))
  {
    match PrefixDuplicateFrom(f.params, 0)
    case Some(name) => Err(DuplicateParameter(name))
    case None =>
      var registered := funcs + [f];
      var _ :- BlockCheck(registered, f.params, Block(f.body));
      Ok(registered)
  }

  /** memcmp over the earlier name's length finds no difference. */
  predicate Clashes(earlier: string, later: string)
  {
    |earlier| <= |later| && later[..|earlier|] == earlier
  }

  /** The outer loop of sema_func's duplicate test from the i-th parameter
      on, as written: the names are compared over the length of the earlier
      one, so a parameter counts as repeated when its name is a prefix of a
      later name.  A later name that is shorter never matches: in the source
      text it is followed by a character that cannot continue an identifier. */
  function PrefixDuplicateFrom(params: seq<Decl>, i: nat): (r: Option<string>)
    requires i <= |params|
    ensures r.Some? ==> exists k, j | i <= k < j < |params| ::
                          params[k].name == r.value && Clashes(r.value, params[j].name)
    ensures r.None? ==> forall k, j | i <= k < j < |params| :: !Clashes(params[k].name, params[j].name)
    decreases |params| - i
  {
    if i == |params| then None
    else if exists j | i < j < |params| :: Clashes(params[i].name, params[j].name) then Some(params[i].name)
    else PrefixDuplicateFrom(params, i + 1)
  }

  /** Every list with a repeated name is still rejected by the test as
      written: it errs only on the side of rejecting too much. */
  lemma PrefixTestRejectsDuplicates(params: seq<Decl>)
    requires HasDuplicate(params)
    ensures PrefixDuplicateFrom(params, 0).Some?
  {
    var k, j :| 0 <= k < j < |params| && params[k].name == params[j].name;
    assert Clashes(params[k].name, params[j].name);
  }

  /** No parameter's name is a proper prefix of a later parameter's. */
  predicate ClashOnlyWhenEqual(params: seq<Decl>)
  {
    forall k, j | 0 <= k < j < |params| ::
      Clashes(params[k].name, params[j].name) ==> params[k].name == params[j].name
  }

  /** Where no name is a proper prefix of a later one, the test as written
      rejects exactly the lists the intended test rejects. */
  lemma PrefixTestExactWithoutPrefixes(params: seq<Decl>)
    requires ClashOnlyWhenEqual(params)
    ensures PrefixDuplicateFrom(params, 0).Some? <==> DuplicateFrom(params, 0).Some?
  {
    DuplicateTestExact(params);
    if PrefixDuplicateFrom(params, 0).Some? {
      var k, j :| 0 <= k < j < |params| && Clashes(params[k].name, params[j].name);
      assert params[k].name == params[j].name;
    } else if HasDuplicate(params) {
      PrefixTestRejectsDuplicates(params);
    }
  }

  /** The intended duplicate test from the i-th parameter on: the name of the
      first parameter that has a later one with the same name. */
  function DuplicateFrom(params: seq<Decl>, i: nat): (r: Option<string>)
    requires i <= |params|
    ensures r.Some? ==> exists k, j | i <= k < j < |params| ::
                          params[k].name == r.value && params[j].name == r.value
    ensures r.None? ==> forall k, j | i <= k < j < |params| :: params[k].name != params[j].name
    decreases |params| - i
  {
    if i == |params| then None
    else if exists j | i < j < |params| :: params[i].name == params[j].name then Some(params[i].name)
    else DuplicateFrom(params, i + 1)
  }

  /** The intended test rejects exactly the parameter lists with a repeated name. */
  lemma DuplicateTestExact(params: seq<Decl>)
    ensures DuplicateFrom(params, 0).Some? <==> HasDuplicate(params)
  {
  }

  // ---------------------------------------------------------------- properties

  /** A name resolves to its innermost declaration: a local pushed last
      shadows every earlier local of the same name. */
  lemma ShadowingResolvesInnermost(funcs: seq<Func>, locals: seq<Decl>, d: Decl, offset: int)
    ensures ExprType(funcs, locals + [d], Var(d.name, offset)) == Ok(d.ty)
  {
    assert (locals + [d])[|locals|] == d;
  }

  /** A name with no local of that name fails, whatever the offset. */
  lemma UndefinedWithoutDeclaration(funcs: seq<Func>, locals: seq<Decl>, name: string, offset: int)
    requires forall j | 0 <= j < |locals| :: locals[j].name != name
    ensures ExprType(funcs, locals, Var(name, offset)) == Err(UndefinedVariable(name))
  {
  }

  /** A declaration is refused exactly when a local of the same name lies at
      or above the marker of the current scope; a name declared only in an
      outer scope is accepted and the new local is pushed. */
  lemma {:induction false} DuplicateIffInScope(funcs: seq<Func>, locals: seq<Decl>, scopeStart: nat,
                                               d: Decl, init: Node)
    requires Complete(init)
    ensures var r := StmtCheck(funcs, locals, scopeStart, VarDecl(d, Some(init)));
            (r == Err(DuplicateVariable(d.name)) <==>
               exists j | scopeStart <= j < |locals| :: locals[j].name == d.name) &&
            ((forall j | scopeStart <= j < |locals| :: locals[j].name != d.name) ==>
               r == (var t := ExprType(funcs, locals, init); if t.Ok? then Ok(locals + [d]) else Err(t.error)))
  {
    var i := LastIndex(locals, d.name);
    var r := StmtCheck(funcs, locals, scopeStart, VarDecl(d, Some(init)));
    if exists j | scopeStart <= j < |locals| :: locals[j].name == d.name {
      var j :| scopeStart <= j < |locals| && locals[j].name == d.name;
      assert j <= i;
    } else if i < |locals| {
      assert i < scopeStart;
      var t := ExprType(funcs, locals, init);
      assert r == (if t.Ok? then Ok(locals + [d]) else Err(t.error));
      assert t.Err? ==> t.error != DuplicateVariable(d.name) by {
        ExprNeverDuplicate(funcs, locals, init);
      }
    } else {
      ExprNeverDuplicate(funcs, locals, init);
    }
  }

  /** Expressions never report a duplicate declaration. */
  lemma {:induction false} ExprNeverDuplicate(funcs: seq<Func>, locals: seq<Decl>, e: Node)
    requires Complete(e)
    ensures ExprType(funcs, locals, e).Err? ==> !ExprType(funcs, locals, e).error.DuplicateVariable?
    decreases e
  {
    match e
    case Call(name, args) =>
      if FirstFunc(funcs, name).Some? && |args| == |FirstFunc(funcs, name).value.params| {
        ArgsNeverDuplicate(funcs, locals, e, 0);
      }
    case Binop(_, l, r) =>
      ExprNeverDuplicate(funcs, locals, l);
      ExprNeverDuplicate(funcs, locals, r);
    case Unop(_, x) => ExprNeverDuplicate(funcs, locals, x);
    case Cond(_, a, b) =>
      ExprNeverDuplicate(funcs, locals, a);
      ExprNeverDuplicate(funcs, locals, b);
    case Attr(b, _) => ExprNeverDuplicate(funcs, locals, b);
    case VarDecl(d, init) => ExprNeverDuplicate(funcs, locals, init.value);
    case _ =>
  }

  lemma {:induction false} ArgsNeverDuplicate(funcs: seq<Func>, locals: seq<Decl>, call: Node, i: nat)
    requires call.Call? && Complete(call) && i <= |call.args|
    ensures ArgsCheck(funcs, locals, call, i).Err? ==> !ArgsCheck(funcs, locals, call, i).error.DuplicateVariable?
    decreases call, |call.args| - i
  {
    if i < |call.args| {
      ExprNeverDuplicate(funcs, locals, call.args[i]);
      ArgsNeverDuplicate(funcs, locals, call, i + 1);
    }
  }

  /** Pointer arithmetic in `+` is symmetric: `p + n` and `n + p` both have
      the pointer's type, and any pair that one order rejects the other
      rejects too. */
  lemma AddSymmetric(a: Type, b: Type)
    ensures BinaryType(Add, a, b) == BinaryType(Add, b, a)
  {
  }

  /** `-` accepts int-int and pointer-int only: an int minus a pointer, and a
      pointer minus a pointer, are refused. */
  lemma SubtractionTable(a: Type, b: Type)
    ensures BinaryType(Sub, a, b).Ok? <==> IsInt(b) && (IsInt(a) || IsPtr(a))
    ensures BinaryType(Sub, a, b).Ok? ==> BinaryType(Sub, a, b).value == a
  {
  }

  /** Taking the address and dereferencing it gives back the operand's type. */
  lemma DerefOfAddr(funcs: seq<Func>, locals: seq<Decl>, e: Node)
    requires Complete(e)
    ensures ExprType(funcs, locals, Unop(Deref, Unop(Addr, e))) == ExprType(funcs, locals, e)
  {
  }

  /** Comparisons are int whenever both operands type-check. */
  lemma ComparisonIsInt(funcs: seq<Func>, locals: seq<Decl>, op: BinOp, l: Node, r: Node)
    requires op in {Eq, Neq, Lt, Lte} && Complete(l) && Complete(r)
    ensures var t := ExprType(funcs, locals, Binop(op, l, r));
            t.Ok? <==> ExprType(funcs, locals, l).Ok? && ExprType(funcs, locals, r).Ok?
    ensures ExprType(funcs, locals, Binop(op, l, r)).Ok? ==>
              ExprType(funcs, locals, Binop(op, l, r)).value == IntType
  {
    var lt := ExprType(funcs, locals, l);
    var rt := ExprType(funcs, locals, r);
    if lt.Ok? && rt.Ok? {
      assert ExprType(funcs, locals, Binop(op, l, r)) == BinaryType(op, lt.value, rt.value);
    }
  }

  /** The first function with a name is the one find_func returns. */
  lemma FirstFuncAt(funcs: seq<Func>, name: string, i: nat)
    requires i < |funcs| && funcs[i].name == name
    requires forall j | 0 <= j < i :: funcs[j].name != name
    ensures FirstFunc(funcs, name) == Some(funcs[i])
  {
    assert funcs[i] in funcs;
    var r := FirstFunc(funcs, name);
    var k :| 0 <= k < |funcs| && funcs[k] == r.value &&
             forall j | 0 <= j < k :: funcs[j].name != name;
    assert funcs[k].name == name;
    assert k == i;
  }

  /** A call is refused when no function of that name was registered before,
      or when the number of arguments differs from the callee's parameters;
      otherwise it has the callee's return type once its arguments check. */
  lemma CallTyping(funcs: seq<Func>, locals: seq<Decl>, name: string, args: seq<Node>)
    requires Complete(Call(name, args))
    ensures (forall f | f in funcs :: f.name != name) ==>
              ExprType(funcs, locals, Call(name, args)) == Err(UndefinedFunction(name))
    ensures forall i | 0 <= i < |funcs| ::
              funcs[i].name == name && (forall j | 0 <= j < i :: funcs[j].name != name) ==>
              ExprType(funcs, locals, Call(name, args)) ==
                (if |args| != |funcs[i].params| then Err(ArgumentCount(name))
                 else if ArgsCheck(funcs, locals, Call(name, args), 0).Err?
                 then Err(ArgsCheck(funcs, locals, Call(name, args), 0).error)
                 else Ok(funcs[i].retType))
  {
    forall i | 0 <= i < |funcs| && funcs[i].name == name && (forall j | 0 <= j < i :: funcs[j].name != name)
      ensures FirstFunc(funcs, name) == Some(funcs[i])
    {
      FirstFuncAt(funcs, name, i);
    }
  }

  /** After a whole function the local stack is back to exactly the
      parameters, and the function is registered after those before it. */
  lemma FuncRegistersItself(funcs: seq<Func>, f: Func)
    requires Complete(Block(f.body))
    ensures FuncCheck(funcs, f).Ok? ==> FuncCheck(funcs, f).value == funcs + [f]
    ensures HasDuplicate(f.params) ==> FuncCheck(funcs, f).Err?
  {
    if HasDuplicate(f.params) {
      PrefixTestRejectsDuplicates(f.params);
    }
  }
}
