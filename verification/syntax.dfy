/**
 * Shared vocabulary of the three passes: tokens as the lexer hands them over,
 * the type language, the abstract syntax tree and the scope chains used for
 * typedef aliases and struct tags.
 */
module Syntax {

  datatype Option<T> = None | Some(value: T)

  /** A lexed token.  Source locations only feed diagnostics and are left out. */
  datatype Token =
    | Keyword(text: string)     // TK_KWD: punctuation and reserved words
    | Ident(name: string)       // TK_IDT
    | Number(value: int)        // TK_NUM
    | StringLit(text: string)   // TK_STRING
    | CharLit(value: int)       // TK_CHAR

  /** Types: ptr_of and array_of wrap an existing type. */
  datatype Type =
    | IntType
    | CharType
    | PtrTo(to: Type)
    | ArrayOf(elem: Type, length: int)
    | StructType(tag: Option<string>, fields: seq<Decl>)

  /** A declared name with its type: a parameter, a local, a struct field. */
  datatype Decl = Decl(name: string, ty: Type)

  datatype BinOp =
    | Add | Sub | Mul | Div | Mod
    | Eq | Neq | Lt | Lte
    | Shl | Shr
    | LogOr | LogAnd | BitOr | BitXor | BitAnd
    | Comma     // ND_SEQ
    | Assign    // ND_ASGN

  datatype UnOp = Addr | Deref | LogNot | SizeOf

  /**
   * AST nodes.  A variable reference carries the frame offset the code
   * generator reads; the parser creates it with offset 0.
   */
  datatype Node =
    | Num(val: int)
    | Var(name: string, offset: int)
    | Str(text: string)
    | Chr(code: int)
    | Binop(op: BinOp, lhs: Node, rhs: Node)
    | Unop(uop: UnOp, operand: Node)
    | Cond(test: Node, ifTrue: Node, ifFalse: Node)
    | Attr(base: Node, field: string)
    | Call(callee: string, args: seq<Node>)
    | ArrayLit(elems: seq<Node>)
    | VarDecl(decl: Decl, init: Option<Node>)
    | Return(value: Option<Node>)
    | If(cond: Node, thenS: Node, elseS: Option<Node>)
    | While(cond: Node, body: Node)
    | For(init: Option<Node>, guard: Option<Node>, step: Option<Node>, body: Node)
    | DoWhile(body: Node, cond: Node)
    | Break
    | Continue
    | Block(stmts: seq<Node>)

  /** A global variable declaration (ND_GVAR). */
  datatype Global = Global(name: string, ty: Type, init: Option<Node>)

  /** A function definition with the globals it could see when it was parsed. */
  datatype Func = Func(name: string, params: seq<Decl>, retType: Type,
                       body: seq<Node>, globals: map<string, Global>)

  /**
   * True when no child that the later passes dereference unconditionally is
   * missing: every declaration has an initializer, every `return` a value and
   * every `for` all three clauses.
   */
  predicate Complete(n: Node)
  {
    match n
    case Num(_) => true
    case Var(_, _) => true
    case Str(_) => true
    case Chr(_) => true
    case Binop(_, l, r) => Complete(l) && Complete(r)
    case Unop(_, e) => Complete(e)
    case Cond(t, a, b) => Complete(t) && Complete(a) && Complete(b)
    case Attr(b, _) => Complete(b)
    case Call(_, args) => forall a | a in args :: Complete(a)
    case ArrayLit(es) => forall e | e in es :: Complete(e)
    case VarDecl(_, init) => init.Some? && Complete(init.value)
    case Return(v) => v.Some? && Complete(v.value)
    case If(c, t, e) => Complete(c) && Complete(t) && (e.Some? ==> Complete(e.value))
    case While(c, b) => Complete(c) && Complete(b)
    case For(i, g, s, b) =>
      i.Some? && g.Some? && s.Some? &&
      Complete(i.value) && Complete(g.value) && Complete(s.value) && Complete(b)
    case DoWhile(b, c) => Complete(b) && Complete(c)
    case Break => true
    case Continue => true
    case Block(ss) => forall s | s in ss :: Complete(s)
  }

  /**
   * A scope chain (Environment): the innermost scope is the last element.
   */
  type Scopes = seq<map<string, Type>>

  /** env_find: the binding in the innermost scope that has one. */
  function Find(s: Scopes, name: string): (r: Option<Type>)
    ensures r.Some? <==> exists i :: 0 <= i < |s| && name in s[i]
    ensures r.Some? ==> exists i :: 0 <= i < |s| && name in s[i] && s[i][name] == r.value &&
                                    forall j :: i < j < |s| ==> name !in s[j]
  {
    if |s| == 0 then None
    else if name in s[|s| - 1] then Some(s[|s| - 1][name])
    else Find(s[..|s| - 1], name)
  }

  /** env_push: binds in the innermost scope only, replacing a binding there. */
  function Bind(s: Scopes, name: string, t: Type): (r: Scopes)
    ensures |s| == 0 ==> |r| == 1
    ensures |s| > 0 ==> |r| == |s| && r[..|s| - 1] == s[..|s| - 1] &&
                        r[|s| - 1] == s[|s| - 1][name := t]
    ensures Find(r, name) == Some(t)
    ensures forall n :: n != name ==> Find(r, n) == Find(s, n)
  {
    if |s| == 0 then [map[name := t]]
    else
      var r := s[..|s| - 1] + [s[|s| - 1][name := t]];
      assert r[..|r| - 1] == s[..|s| - 1];
      r
  }
}
