/**
 * The grammar of parse.c as functions of a cursor position.  Each function
 * answers what the recursive-descent routine of the same name returns and where
 * it leaves the cursor; the imperative Parser class is proved to agree with
 * them.  Every routine either succeeds with a value and the new position or
 * fails with the error that the source reports (and aborts on).
 */
module Grammar {
  import opened Syntax

  datatype ParseError =
    | ExpectedKeyword(kw: string)   // expect_keyword
    | ExpectedIdent                 // expect(TK_IDT)
    | TypeExpected                  // typedef without a type
    | UnknownType                   // type()
    | InvalidStruct                 // struct with neither tag nor body
    | InvalidStructDecl             // parse_struct
    | IncompleteStructPointer       // `struct T *` with T unknown: ptr_of(NULL)
    | InvalidExpression             // term() with no operand
    | NotATypeName                  // consume_type_identifier on a non-identifier
    | MissingArrayLength            // `[` not followed by a number

  datatype At<T> = At(val: T, pos: nat)

  datatype PResult<T> = Success(value: At<T>) | Failure(error: ParseError) {
    predicate IsFailure() { Failure? }
    function PropagateFailure<U>(): PResult<U> requires Failure? { Failure(error) }
    function Extract(): At<T> requires Success? { value }
  }

  /** What a routine reads besides the cursor: the tokens and both scope chains. */
  datatype Ctx = Ctx(toks: seq<Token>, aliases: Scopes, structs: Scopes)

  /** The cursor never moves backwards nor past the end. */
  predicate Within<T>(c: Ctx, pos: nat, r: PResult<T>)
  {
    r.Success? ==> pos <= r.value.pos <= |c.toks|
  }

  /** The routine consumed at least one token. */
  predicate Beyond<T>(c: Ctx, pos: nat, r: PResult<T>)
  {
    r.Success? ==> pos < r.value.pos <= |c.toks|
  }

  /** The routine's last token was the keyword kw. */
  predicate ClosedBy<T>(c: Ctx, r: PResult<T>, kw: string)
  {
    r.Success? ==> 0 < r.value.pos <= |c.toks| && c.toks[r.value.pos - 1] == Keyword(kw)
  }

  // ---------------------------------------------------------------- tokens

  /** The node kinds that the expression routines build; statements and
      array initializers are not among them. */
  predicate IsExpression(n: Node)
  {
    n.Num? || n.Var? || n.Str? || n.Chr? || n.Binop? || n.Unop? ||
    n.Cond? || n.Attr? || n.Call?
  }

  predicate Yields(r: PResult<Node>)
  {
    r.Success? ==> IsExpression(r.value.val)
  }

  predicate AtKeyword(c: Ctx, pos: nat, kw: string)
  {
    pos < |c.toks| && c.toks[pos] == Keyword(kw)
  }

  /** lookahead(TK_IDT) != NULL */
  predicate AtIdent(c: Ctx, pos: nat)
  {
    pos < |c.toks| && c.toks[pos].Ident?
  }

  /** expect_keyword */
  function Expect(c: Ctx, pos: nat, kw: string): (r: PResult<Token>)
    ensures r.Success? <==> AtKeyword(c, pos, kw)
    ensures r.Success? ==> r.value.pos == pos + 1
  {
    if AtKeyword(c, pos, kw) then Success(At(c.toks[pos], pos + 1))
    else Failure(ExpectedKeyword(kw))
  }

  /** expect(TK_IDT), giving the identifier's name */
  function ExpectIdent(c: Ctx, pos: nat): (r: PResult<string>)
    ensures r.Success? <==> AtIdent(c, pos)
    ensures r.Success? ==> r.value.pos == pos + 1 && c.toks[pos] == Ident(r.value.val)
  {
    if AtIdent(c, pos) then Success(At(c.toks[pos].name, pos + 1))
    else Failure(ExpectedIdent)
  }

  /** lookahead_var_decl */
  predicate StartsDecl(c: Ctx, pos: nat)
  {
    AtKeyword(c, pos, "struct") || (AtIdent(c, pos) && Find(c.aliases, c.toks[pos].name).Some?)
  }

  // ---------------------------------------------------------------- types

  /** type_pointer */
  function TypePointer(c: Ctx, t: Type, pos: nat): (r: At<Type>)
    requires pos <= |c.toks|
    ensures pos <= r.pos <= |c.toks|
    decreases |c.toks| - pos
  {
    if AtKeyword(c, pos, "*") then TypePointer(c, PtrTo(t), pos + 1) else At(t, pos)
  }

  /** type_pointer reads only the tokens, not the scopes. */
  lemma TypePointerReadsTokens(c: Ctx, d: Ctx, t: Type, pos: nat)
    requires pos <= |c.toks| && c.toks == d.toks
    ensures TypePointer(c, t, pos) == TypePointer(d, t, pos)
    decreases |c.toks| - pos
  {
    if AtKeyword(c, pos, "*") {
      TypePointerReadsTokens(c, d, PtrTo(t), pos + 1);
    }
  }

  /** type_array */
  function TypeArray(c: Ctx, t: Type, pos: nat): (r: PResult<Type>)
    requires pos <= |c.toks|
    ensures Within(c, pos, r)
    decreases |c.toks| - pos
  {
    if AtKeyword(c, pos, "[") then
      if pos + 1 < |c.toks| && c.toks[pos + 1].Number? then
        var close :- Expect(c, pos + 2, "]");
        TypeArray(c, ArrayOf(t, c.toks[pos + 1].value), close.pos)
      else Failure(MissingArrayLength)
    else Success(At(t, pos))
  }

  /** consume_type_pre: a struct-tag or alias lookup, then pointer suffixes; None for NULL. */
  function TypePre(c: Ctx, pos: nat): (r: PResult<Option<Type>>)
    requires pos <= |c.toks|
    ensures Within(c, pos, r)
    ensures r.Success? && r.value.val.Some? ==> pos < r.value.pos
  {
    if AtKeyword(c, pos, "struct") then
      var id :- ExpectIdent(c, pos + 1);
      match Find(c.structs, id.val)
      case None => Success(At(None, id.pos))
      case Some(t) =>
        var p := TypePointer(c, t, id.pos);
        Success(At(Some(p.val), p.pos))
    else if AtIdent(c, pos) then
      match Find(c.aliases, c.toks[pos].name)
      case None => Success(At(None, pos))
      case Some(t) =>
        var p := TypePointer(c, t, pos + 1);
        Success(At(Some(p.val), p.pos))
    else Failure(NotATypeName)
  }

  /** type() */
  function TypeName(c: Ctx, pos: nat): (r: PResult<Type>)
    requires pos <= |c.toks|
    ensures Beyond(c, pos, r)
  {
    var t :- TypePre(c, pos);
    match t.val
    case None => Failure(UnknownType)
    case Some(ty) => Success(At(ty, t.pos))
  }

  /** var_decl */
  function VarDeclare(c: Ctx, pos: nat): (r: PResult<Decl>)
    requires pos <= |c.toks|
    ensures Beyond(c, pos, r)
  {
    var t :- TypeName(c, pos);
    var id :- ExpectIdent(c, t.pos);
    var arr :- TypeArray(c, t.val, id.pos);
    Success(At(Decl(id.val, arr.val), arr.pos))
  }

  /** params(), entered just after the opening `(` */
  function Params(c: Ctx, pos: nat): (r: PResult<seq<Decl>>)
    requires pos <= |c.toks|
    ensures Beyond(c, pos, r)
    ensures ClosedBy(c, r, ")")
  {
    if AtKeyword(c, pos, ")") then Success(At([], pos + 1))
    else
      var first :- VarDeclare(c, pos);
      ParamsTail(c, [first.val], first.pos)
  }

  function ParamsTail(c: Ctx, acc: seq<Decl>, pos: nat): (r: PResult<seq<Decl>>)
    requires pos <= |c.toks|
    ensures Beyond(c, pos, r)
    ensures ClosedBy(c, r, ")")
    decreases |c.toks| - pos
  {
    if AtKeyword(c, pos, ")") then Success(At(acc, pos + 1))
    else
      var d :- NextParam(c, pos);
      ParamsTail(c, acc + [d.val], d.pos)
  }

  /** A parameter after the first: `,` and a declaration. */
  function NextParam(c: Ctx, pos: nat): (r: PResult<Decl>)
    requires pos <= |c.toks|
    ensures Beyond(c, pos, r)
  {
    var comma :- Expect(c, pos, ",");
    VarDeclare(c, comma.pos)
  }

  // ---------------------------------------------------------------- expressions
  //
  // Mutually recursive; each call either consumes a token first or moves to a
  // routine of lower rank (the second decreases component).

  /** expr(): comma sequences, left-associative. */
  function Expr(c: Ctx, pos: nat): (r: PResult<Node>)
    requires pos <= |c.toks|
    ensures Within(c, pos, r)
    ensures Yields(r)
    decreases |c.toks| - pos, 33
  {
    var first :- Assignment(c, pos);
    SeqTail(c, first.val, first.pos)
  }

  function SeqTail(c: Ctx, acc: Node, pos: nat): (r: PResult<Node>)
    requires pos <= |c.toks|
    ensures Within(c, pos, r)
    ensures IsExpression(acc) ==> Yields(r)
    decreases |c.toks| - pos, 0
  {
    if AtKeyword(c, pos, ",") then
      var rhs :- Assignment(c, pos + 1);
      SeqTail(c, Binop(Comma, acc, rhs.val), rhs.pos)
    else Success(At(acc, pos))
  }

  /** assignment(): the right side is a whole expr(). */
  function Assignment(c: Ctx, pos: nat): (r: PResult<Node>)
    requires pos <= |c.toks|
    ensures Within(c, pos, r)
    ensures Yields(r)
    decreases |c.toks| - pos, 32
  {
    var lhs :- Conditional(c, pos);
    if AtKeyword(c, lhs.pos, "=") then
      var rhs :- Expr(c, lhs.pos + 1);
      Success(At(Binop(Assign, lhs.val, rhs.val), rhs.pos))
    else Success(lhs)
  }

  /** conditional(): `c ? expr : conditional` */
  function Conditional(c: Ctx, pos: nat): (r: PResult<Node>)
    requires pos <= |c.toks|
    ensures Within(c, pos, r)
    ensures Yields(r)
    decreases |c.toks| - pos, 31
  {
    var test :- Level(c, pos, 0);
    if AtKeyword(c, test.pos, "?") then CondArms(c, test.val, test.pos + 1)
    else Success(test)
  }

  /** The two arms of `test ? yes : no`, entered after `?`; the second arm
      is itself a conditional. */
  function CondArms(c: Ctx, test: Node, pos: nat): (r: PResult<Node>)
    requires pos <= |c.toks|
    ensures Beyond(c, pos, r)
    ensures Yields(r)
    decreases |c.toks| - pos, 34
  {
    var yes :- Expr(c, pos);
    var colon :- Expect(c, yes.pos, ":");
    var no :- Conditional(c, colon.pos);
    Success(At(Cond(test, yes.val, no.val), no.pos))
  }

  /** An operator of a binary precedence level: its keyword, its node kind, and
      whether the operands are exchanged (`>` and `>=`). */
  datatype OpEntry = OpEntry(kw: string, op: BinOp, swapped: bool)

  /** logical_or() down to mul(), loosest first. */
  const Levels: seq<seq<OpEntry>> := [
    [OpEntry("||", LogOr, false)],
    [OpEntry("&&", LogAnd, false)],
    [OpEntry("|", BitOr, false)],
    [OpEntry("^", BitXor, false)],
    [OpEntry("&", BitAnd, false)],
    [OpEntry("==", Eq, false), OpEntry("!=", Neq, false)],
    [OpEntry("<", Lt, false), OpEntry("<=", Lte, false),
     OpEntry(">", Lt, true), OpEntry(">=", Lte, true)],
    [OpEntry("<<", Shl, false), OpEntry(">>", Shr, false)],
    [OpEntry("+", Add, false), OpEntry("-", Sub, false)],
    [OpEntry("*", Mul, false), OpEntry("/", Div, false), OpEntry("%", Mod, false)]
  ]

  /** The index of the multiplicative level, mul(). */
  const MulLevel: nat := 9

  /** The first operator of the list whose keyword is the next token. */
  function MatchOp(c: Ctx, pos: nat, ops: seq<OpEntry>): (r: Option<OpEntry>)
    ensures r.Some? ==> r.value in ops && AtKeyword(c, pos, r.value.kw)
    ensures r.None? ==> forall e | e in ops :: !AtKeyword(c, pos, e.kw)
  {
    if ops == [] then None
    else if AtKeyword(c, pos, ops[0].kw) then Some(ops[0])
    else MatchOp(c, pos, ops[1..])
  }

  /** One binary level: an operand, then (operator operand)*, folded to the left. */
  function Level(c: Ctx, pos: nat, lvl: nat): (r: PResult<Node>)
    requires pos <= |c.toks| && lvl < |Levels|
    ensures Within(c, pos, r)
    ensures Yields(r)
    decreases |c.toks| - pos, 30 - 2 * lvl
  {
    var first :- Operand(c, pos, lvl);
    LevelTail(c, lvl, first.val, first.pos)
  }

  /** The operand of a level: the next tighter level, or unary() below mul(). */
  function Operand(c: Ctx, pos: nat, lvl: nat): (r: PResult<Node>)
    requires pos <= |c.toks| && lvl < |Levels|
    ensures Within(c, pos, r)
    ensures Yields(r)
    decreases |c.toks| - pos, 29 - 2 * lvl
  {
    if lvl + 1 < |Levels| then Level(c, pos, lvl + 1) else UnaryExpr(c, pos)
  }

  function LevelTail(c: Ctx, lvl: nat, acc: Node, pos: nat): (r: PResult<Node>)
    requires pos <= |c.toks| && lvl < |Levels|
    ensures Within(c, pos, r)
    ensures IsExpression(acc) ==> Yields(r)
    decreases |c.toks| - pos, 0
  {
    match MatchOp(c, pos, Levels[lvl])
    case None => Success(At(acc, pos))
    case Some(e) =>
      var rhs :- Operand(c, pos + 1, lvl);
      var node := if e.swapped then Binop(e.op, rhs.val, acc) else Binop(e.op, acc, rhs.val);
      LevelTail(c, lvl, node, rhs.pos)
  }

  /** unary(): note that `&` and `*` take a whole mul(), `-` and `+` a term(). */
  function UnaryExpr(c: Ctx, pos: nat): (r: PResult<Node>)
    requires pos <= |c.toks|
    ensures Within(c, pos, r)
    ensures Yields(r)
    decreases |c.toks| - pos, 10
  {
    if AtKeyword(c, pos, "sizeof") then
      var e :- UnaryExpr(c, pos + 1);
      Success(At(Unop(SizeOf, e.val), e.pos))
    else if AtKeyword(c, pos, "+") then
      Term(c, pos + 1)
    else if AtKeyword(c, pos, "-") then
      var e :- Term(c, pos + 1);
      Success(At(Binop(Sub, Num(0), e.val), e.pos))
    else if AtKeyword(c, pos, "&") then
      var e :- Level(c, pos + 1, MulLevel);
      Success(At(Unop(Addr, e.val), e.pos))
    else if AtKeyword(c, pos, "*") then
      var e :- Level(c, pos + 1, MulLevel);
      Success(At(Unop(Deref, e.val), e.pos))
    else if AtKeyword(c, pos, "!") then
      var e :- UnaryExpr(c, pos + 1);
      Success(At(Unop(LogNot, e.val), e.pos))
    else Term(c, pos)
  }

  /** term(): a primary followed by postfix suffixes. */
  function Term(c: Ctx, pos: nat): (r: PResult<Node>)
    requires pos <= |c.toks|
    ensures Within(c, pos, r)
    ensures Yields(r)
    decreases |c.toks| - pos, 9
  {
    var p :- Primary(c, pos);
    PostfixTail(c, p.val, p.pos)
  }

  /** The first half of term(): an optional parenthesised expression, then an
      optional identifier, call or literal, which replaces it when present. */
  function Primary(c: Ctx, pos: nat): (r: PResult<Node>)
    requires pos <= |c.toks|
    ensures Within(c, pos, r)
    ensures Yields(r)
    decreases |c.toks| - pos, 8
  {
    if AtKeyword(c, pos, "(") then
      var e :- Expr(c, pos + 1);
      var close :- Expect(c, e.pos, ")");
      Atom(c, close.pos, Some(e.val))
    else Atom(c, pos, None)
  }

  function Atom(c: Ctx, pos: nat, prior: Option<Node>): (r: PResult<Node>)
    requires pos <= |c.toks|
    ensures Within(c, pos, r)
    ensures (prior.Some? ==> IsExpression(prior.value)) ==> Yields(r)
    decreases |c.toks| - pos, 7
  {
    if AtIdent(c, pos) then
      var name := c.toks[pos].name;
      if AtKeyword(c, pos + 1, "(") then
        var args :- List(c, pos + 2, ")");
        Success(At(Call(name, args.val), args.pos))
      else Success(At(Var(name, 0), pos + 1))
    else if pos < |c.toks| && c.toks[pos].Number? then
      Success(At(Num(c.toks[pos].value), pos + 1))
    else if pos < |c.toks| && c.toks[pos].StringLit? then
      Success(At(Str(c.toks[pos].text), pos + 1))
    else if pos < |c.toks| && c.toks[pos].CharLit? then
      Success(At(Chr(c.toks[pos].value), pos + 1))
    else
      match prior
      case Some(n) => Success(At(n, pos))
      case None => Failure(InvalidExpression)
  }

  /** The postfix loop of term(): `[e]`, `.f` and `->f`, applied left to right. */
  function PostfixTail(c: Ctx, acc: Node, pos: nat): (r: PResult<Node>)
    requires pos <= |c.toks|
    ensures Within(c, pos, r)
    ensures IsExpression(acc) ==> Yields(r)
    decreases |c.toks| - pos, 1
  {
    var op :- PostfixOp(c, acc, pos);
    match op.val
    case None => Success(At(acc, pos))
    case Some(n) => PostfixTail(c, n, op.pos)
  }

  /** One postfix operator applied to the tree so far: `[i]` is `*(a + i)`,
      `.f` an attribute, `->f` an attribute of `*a`; None when the next
      token starts none of them. */
  function PostfixOp(c: Ctx, acc: Node, pos: nat): (r: PResult<Option<Node>>)
    requires pos <= |c.toks|
    ensures r.Success? && r.value.val.None? ==> r.value.pos == pos
    ensures r.Success? && r.value.val.Some? ==>
              Beyond(c, pos, r) && (IsExpression(acc) ==> IsExpression(r.value.val.value))
    decreases |c.toks| - pos, 0
  {
    if AtKeyword(c, pos, "[") then
      var s :- Subscript(c, acc, pos + 1);
      Success(At(Some(s.val), s.pos))
    else if AtKeyword(c, pos, ".") then
      var f :- ExpectIdent(c, pos + 1);
      Success(At(Some(Attr(acc, f.val)), f.pos))
    else if AtKeyword(c, pos, "->") then
      var f :- ExpectIdent(c, pos + 1);
      Success(At(Some(Attr(Unop(Deref, acc), f.val)), f.pos))
    else Success(At(None, pos))
  }

  /** `a[i]` is read as `*(a + i)`; entered after `[`. */
  function Subscript(c: Ctx, acc: Node, pos: nat): (r: PResult<Node>)
    requires pos <= |c.toks|
    ensures Beyond(c, pos, r)
    ensures Yields(r)
    decreases |c.toks| - pos, 34
  {
    var index :- Expr(c, pos);
    var close :- Expect(c, index.pos, "]");
    Success(At(Unop(Deref, Binop(Add, acc, index.val)), close.pos))
  }

  /** args() and array(): a possibly empty, comma-separated list of
      assignment() expressions up to `close`, entered after the opener. */
  function List(c: Ctx, pos: nat, close: string): (r: PResult<seq<Node>>)
    requires pos <= |c.toks|
    ensures Beyond(c, pos, r)
    ensures ClosedBy(c, r, close)
    decreases |c.toks| - pos, 35
  {
    if AtKeyword(c, pos, close) then Success(At([], pos + 1))
    else
      var first :- Assignment(c, pos);
      ListTail(c, [first.val], first.pos, close)
  }

  function ListTail(c: Ctx, acc: seq<Node>, pos: nat, close: string): (r: PResult<seq<Node>>)
    requires pos <= |c.toks|
    ensures Beyond(c, pos, r)
    ensures ClosedBy(c, r, close)
    decreases |c.toks| - pos, 1
  {
    if AtKeyword(c, pos, close) then Success(At(acc, pos + 1))
    else
      var e :- NextItem(c, pos);
      ListTail(c, acc + [e.val], e.pos, close)
  }

  /** An element after the first: `,` and an assign(). */
  function NextItem(c: Ctx, pos: nat): (r: PResult<Node>)
    requires pos <= |c.toks|
    ensures Beyond(c, pos, r)
    decreases |c.toks| - pos, 0
  {
    var comma :- Expect(c, pos, ",");
    Assignment(c, comma.pos)
  }

  /** rhs_expr(): an initializer, either `{ ... }` or an expr(). */
  function RhsExpr(c: Ctx, pos: nat): (r: PResult<Node>)
    requires pos <= |c.toks|
    ensures Within(c, pos, r)
    decreases |c.toks| - pos, 34
  {
    if AtKeyword(c, pos, "{") then
      var es :- List(c, pos + 1, "}");
      Success(At(ArrayLit(es.val), es.pos))
    else Expr(c, pos)
  }

  /** `= rhs_expr()` when the next token is `=`, else no initializer. */
  function Initializer(c: Ctx, pos: nat): (r: PResult<Option<Node>>)
    requires pos <= |c.toks|
    ensures Within(c, pos, r)
  {
    if AtKeyword(c, pos, "=") then
      var e :- RhsExpr(c, pos + 1);
      Success(At(Some(e.val), e.pos))
    else Success(At(None, pos))
  }

  // ---------------------------------------------------------------- statements

  /** stmt(): every statement consumes at least one token. */
  function Stmt(c: Ctx, pos: nat): (r: PResult<Node>)
    requires pos <= |c.toks|
    ensures Beyond(c, pos, r)
    decreases |c.toks| - pos, 40
  {
    if AtKeyword(c, pos, "return") then ReturnStmt(c, pos)
    else if AtKeyword(c, pos, "if") then IfStmt(c, pos)
    else if AtKeyword(c, pos, "while") then WhileStmt(c, pos)
    else if AtKeyword(c, pos, "for") then ForStmt(c, pos)
    else if AtKeyword(c, pos, "do") then DoStmt(c, pos)
    else if AtKeyword(c, pos, "break") then
      var semi :- Expect(c, pos + 1, ";");
      Success(At(Break, semi.pos))
    else if AtKeyword(c, pos, "continue") then
      var semi :- Expect(c, pos + 1, ";");
      Success(At(Continue, semi.pos))
    else if AtKeyword(c, pos, "{") then
      var b :- BlockStmts(c, pos);
      Success(At(Block(b.val), b.pos))
    else if StartsDecl(c, pos) then DeclStmt(c, pos)
    else ExprStmt(c, pos)
  }

  /** A local declaration with an optional initializer. */
  function DeclStmt(c: Ctx, pos: nat): (r: PResult<Node>)
    requires pos <= |c.toks|
    ensures Beyond(c, pos, r)
    decreases |c.toks| - pos, 39
  {
    var d :- VarDeclare(c, pos);
    var init :- Initializer(c, d.pos);
    var semi :- Expect(c, init.pos, ";");
    Success(At(VarDecl(d.val, init.val), semi.pos))
  }

  /** An expression statement. */
  function ExprStmt(c: Ctx, pos: nat): (r: PResult<Node>)
    requires pos <= |c.toks|
    ensures Beyond(c, pos, r)
    decreases |c.toks| - pos, 39
  {
    var e :- Expr(c, pos);
    var semi :- Expect(c, e.pos, ";");
    Success(At(e.val, semi.pos))
  }

  /** `return [expr] ;`, from the keyword. */
  function ReturnStmt(c: Ctx, pos: nat): (r: PResult<Node>)
    requires pos < |c.toks|
    ensures Beyond(c, pos, r)
    decreases |c.toks| - pos, 39
  {
    if AtKeyword(c, pos + 1, ";") then Success(At(Return(None), pos + 2))
    else
      var e :- Expr(c, pos + 1);
      var semi :- Expect(c, e.pos, ";");
      Success(At(Return(Some(e.val)), semi.pos))
  }

  /** `if ( expr ) stmt [else stmt]`, from the keyword. */
  function IfStmt(c: Ctx, pos: nat): (r: PResult<Node>)
    requires pos < |c.toks|
    ensures Beyond(c, pos, r)
    decreases |c.toks| - pos, 39
  {
    var test :- Condition(c, pos + 1);
    IfBranches(c, test.val, test.pos)
  }

  /** The parenthesized condition of `if`, `while` and `do`. */
  function Condition(c: Ctx, pos: nat): (r: PResult<Node>)
    requires pos <= |c.toks|
    ensures Beyond(c, pos, r)
    ensures Yields(r)
    decreases |c.toks| - pos, 34
  {
    var open :- Expect(c, pos, "(");
    var test :- Expr(c, open.pos);
    var close :- Expect(c, test.pos, ")");
    Success(At(test.val, close.pos))
  }

  /** The branches of an `if`, after its closing parenthesis. */
  function IfBranches(c: Ctx, test: Node, pos: nat): (r: PResult<Node>)
    requires pos <= |c.toks|
    ensures Beyond(c, pos, r)
    decreases |c.toks| - pos, 41
  {
    var yes :- Stmt(c, pos);
    ElsePart(c, test, yes.val, yes.pos)
  }

  /** An optional `else` branch after the `then` branch of an `if`. */
  function ElsePart(c: Ctx, test: Node, yes: Node, pos: nat): (r: PResult<Node>)
    requires pos <= |c.toks|
    ensures Within(c, pos, r)
    decreases |c.toks| - pos, 41
  {
    if AtKeyword(c, pos, "else") then ElseStmt(c, test, yes, pos + 1)
    else Success(At(If(test, yes, None), pos))
  }

  /** The `else` branch of an `if`. */
  function ElseStmt(c: Ctx, test: Node, yes: Node, pos: nat): (r: PResult<Node>)
    requires pos <= |c.toks|
    ensures Beyond(c, pos, r)
    decreases |c.toks| - pos, 41
  {
    var no :- Stmt(c, pos);
    Success(At(If(test, yes, Some(no.val)), no.pos))
  }

  /** `while ( expr ) stmt`, from the keyword. */
  function WhileStmt(c: Ctx, pos: nat): (r: PResult<Node>)
    requires pos < |c.toks|
    ensures Beyond(c, pos, r)
    decreases |c.toks| - pos, 39
  {
    var test :- Condition(c, pos + 1);
    var body :- Stmt(c, test.pos);
    Success(At(While(test.val, body.val), body.pos))
  }

  /** `for ( init ; test ; step ) stmt`, from the keyword. */
  function ForStmt(c: Ctx, pos: nat): (r: PResult<Node>)
    requires pos <= |c.toks|
    ensures Beyond(c, pos, r)
    decreases |c.toks| - pos, 39
  {
    var open :- Expect(c, pos + 1, "(");
    var init :- ForInit(c, open.pos);
    var test :- ForClause(c, init.pos, ";");
    var step :- ForClause(c, test.pos, ")");
    var body :- Stmt(c, step.pos);
    Success(At(For(init.val, test.val, step.val, body.val), body.pos))
  }

  /** `do stmt while ( expr ) ;`, from the keyword. */
  function DoStmt(c: Ctx, pos: nat): (r: PResult<Node>)
    requires pos < |c.toks|
    ensures Beyond(c, pos, r)
    decreases |c.toks| - pos, 39
  {
    var body :- Stmt(c, pos + 1);
    DoTail(c, body.val, body.pos)
  }

  /** `while ( expr ) ;` after the body of a `do`. */
  function DoTail(c: Ctx, body: Node, pos: nat): (r: PResult<Node>)
    requires pos <= |c.toks|
    ensures Beyond(c, pos, r)
  {
    var w :- Expect(c, pos, "while");
    var test :- Condition(c, w.pos);
    var semi :- Expect(c, test.pos, ";");
    Success(At(DoWhile(body, test.val), semi.pos))
  }

  /** The first clause of `for (`, through its `;`. */
  function ForInit(c: Ctx, pos: nat): (r: PResult<Option<Node>>)
    requires pos <= |c.toks|
    ensures Beyond(c, pos, r)
    ensures ClosedBy(c, r, ";")
  {
    if AtKeyword(c, pos, ";") then Success(At(None, pos + 1))
    else if StartsDecl(c, pos) then
      var d :- VarDeclare(c, pos);
      var init :- Initializer(c, d.pos);
      var semi :- Expect(c, init.pos, ";");
      Success(At(Some(VarDecl(d.val, init.val)), semi.pos))
    else
      var e :- Expr(c, pos);
      var semi :- Expect(c, e.pos, ";");
      Success(At(Some(e.val), semi.pos))
  }

  /** The condition or step clause of `for`, through its terminator. */
  function ForClause(c: Ctx, pos: nat, close: string): (r: PResult<Option<Node>>)
    requires pos <= |c.toks|
    ensures Beyond(c, pos, r)
    ensures ClosedBy(c, r, close)
  {
    if AtKeyword(c, pos, close) then Success(At(None, pos + 1))
    else
      var e :- Expr(c, pos);
      var end :- Expect(c, e.pos, close);
      Success(At(Some(e.val), end.pos))
  }

  /** block(): `{ stmt* }`, read in a fresh struct scope that is dropped at the
      end (the caller's scopes are unchanged, so they are not returned). */
  function BlockStmts(c: Ctx, pos: nat): (r: PResult<seq<Node>>)
    requires pos <= |c.toks|
    ensures Beyond(c, pos, r)
    ensures ClosedBy(c, r, "}")
    decreases |c.toks| - pos, 39
  {
    var inner := c.(structs := c.structs + [map[]]);
    var open :- Expect(inner, pos, "{");
    StmtsTail(inner, [], open.pos)
  }

  function StmtsTail(c: Ctx, acc: seq<Node>, pos: nat): (r: PResult<seq<Node>>)
    requires pos <= |c.toks|
    ensures Beyond(c, pos, r)
    ensures ClosedBy(c, r, "}")
    decreases |c.toks| - pos, 41
  {
    if AtKeyword(c, pos, "}") then Success(At(acc, pos + 1))
    else
      var s :- Stmt(c, pos);
      StmtsTail(c, acc + [s.val], s.pos)
  }

  // ---------------------------------------------------------------- top level

  /** The result of struct_pre: the type (None for NULL) and the struct scopes. */
  datatype Tagged = Tagged(ty: Option<Type>, structs: Scopes)

  /** struct_pre, entered after `struct`. */
  function StructPre(c: Ctx, pos: nat): (r: PResult<Tagged>)
    requires pos <= |c.toks|
    ensures Within(c, pos, r)
  {
    var tag: Option<string> := if AtIdent(c, pos) then Some(c.toks[pos].name) else None;
    var base :- StructBase(c, tag, if tag.Some? then pos + 1 else pos);
    match base.val
    case None => Success(At(Tagged(None, c.structs), base.pos))
    case Some(ty) =>
      var ptr := TypePointer(c, ty, base.pos);
      Success(At(Tagged(Some(ptr.val), Register(c.structs, ty)), ptr.pos))
  }

  /** The struct type named by struct_pre before any `*`: a new struct when a
      body follows, otherwise the one bound to the tag (None when there is
      none, which is an error only if a pointer to it is requested). */
  function StructBase(c: Ctx, tag: Option<string>, pos: nat): (r: PResult<Option<Type>>)
    requires pos <= |c.toks|
    ensures Within(c, pos, r)
  {
    if AtKeyword(c, pos, "{") then
      var fs :- FieldsTail(c, [], pos + 1);
      Success(At(Some(StructType(tag, fs.val)), fs.pos))
    else if tag.None? then Failure(InvalidStruct)
    else
      match Find(c.structs, tag.value)
      case None =>
        if AtKeyword(c, pos, "*") then Failure(IncompleteStructPointer)
        else Success(At(None, pos))
      case Some(ty) => Success(At(Some(ty), pos))
  }

  /** Binds a struct type under its own tag in the innermost scope; anonymous
      structs (and anything else) are not registered. */
  function Register(s: Scopes, ty: Type): (r: Scopes)
    ensures ty.StructType? && ty.tag.Some? ==> Find(r, ty.tag.value) == Some(ty)
    ensures forall n :: (ty.StructType? && ty.tag.Some? ==> n != ty.tag.value) ==>
                        Find(r, n) == Find(s, n)
    ensures |s| > 0 ==> |r| == |s| && r[..|s| - 1] == s[..|s| - 1]
  {
    if ty.StructType? && ty.tag.Some? then Bind(s, ty.tag.value, ty) else s
  }

  /** The field list of a struct body, through its `}`. */
  function FieldsTail(c: Ctx, acc: seq<Decl>, pos: nat): (r: PResult<seq<Decl>>)
    requires pos <= |c.toks|
    ensures Beyond(c, pos, r)
    ensures ClosedBy(c, r, "}")
    decreases |c.toks| - pos
  {
    if AtKeyword(c, pos, "}") then Success(At(acc, pos + 1))
    else
      var f :- Field(c, pos);
      FieldsTail(c, acc + [f.val], f.pos)
  }

  /** One member of a struct body: a declaration and its `;`. */
  function Field(c: Ctx, pos: nat): (r: PResult<Decl>)
    requires pos <= |c.toks|
    ensures Beyond(c, pos, r)
  {
    var d :- VarDeclare(c, pos);
    var semi :- Expect(c, d.pos, ";");
    Success(At(d.val, semi.pos))
  }

  /** The result of parse_struct: the declared global (name and type), if any. */
  datatype StructDecl = StructDecl(decl: Option<Decl>, structs: Scopes)

  /** parse_struct, entered after `struct`. */
  function ParseStruct(c: Ctx, pos: nat): (r: PResult<StructDecl>)
    requires pos <= |c.toks|
    ensures Within(c, pos, r)
  {
    var t :- StructPre(c, pos);
    var named := AtIdent(c, t.pos);
    match t.val.ty
    case None => Failure(InvalidStructDecl)
    case Some(ty) =>
      if !named && ty.PtrTo? then Failure(InvalidStructDecl)
      else if !named then Success(At(StructDecl(None, t.val.structs), t.pos))
      else Success(At(StructDecl(Some(Decl(c.toks[t.pos].name, ty)), t.val.structs), t.pos + 1))
  }

  /** The parser's state between top-level items. */
  datatype State = State(aliases: Scopes, structs: Scopes,
                         globals: map<string, Global>, functions: seq<Func>)

  function CtxOf(toks: seq<Token>, st: State): Ctx
  {
    Ctx(toks, st.aliases, st.structs)
  }

  /** The type after `typedef`: a struct_pre or a consume_type_pre. */
  function TypedefType(c: Ctx, pos: nat): (r: PResult<Tagged>)
    requires pos <= |c.toks|
    ensures Within(c, pos, r)
  {
    if AtKeyword(c, pos, "struct") then StructPre(c, pos + 1)
    else
      var t :- TypePre(c, pos);
      Success(At(Tagged(t.val, c.structs), t.pos))
  }

  /** func(), entered after `(`: parameters, body, and a copy of the globals. */
  function FuncDef(c: Ctx, ret: Type, name: string, globals: map<string, Global>, pos: nat)
    : (r: PResult<Func>)
    requires pos <= |c.toks|
    ensures Beyond(c, pos, r)
    ensures ClosedBy(c, r, "}")
  {
    var ps :- Params(c, pos);
    var body :- BlockStmts(c, ps.pos);
    Success(At(Func(name, ps.val, ret, body.val, globals), body.pos))
  }

  /** toplevel(): a typedef, a struct declaration, a function or a global. */
  function Toplevel(toks: seq<Token>, st: State, pos: nat): (r: PResult<State>)
    requires pos <= |toks|
    ensures r.Success? ==> pos < r.value.pos <= |toks|
  {
    var c := CtxOf(toks, st);
    if AtKeyword(c, pos, "typedef") then TypedefDecl(toks, st, pos + 1)
    else if AtKeyword(c, pos, "struct") then StructItem(toks, st, pos + 1)
    else TypedDecl(toks, st, pos)
  }

  /** After `typedef`: a type, a name and `;`; the alias is bound in the
      innermost alias scope. */
  function TypedefDecl(toks: seq<Token>, st: State, pos: nat): (r: PResult<State>)
    requires pos <= |toks|
    ensures r.Success? ==> pos < r.value.pos <= |toks|
    ensures r.Success? ==> r.value.val.functions == st.functions && r.value.val.globals == st.globals
  {
    var c := CtxOf(toks, st);
    var t :- TypedefType(c, pos);
    match t.val.ty
    case None => Failure(TypeExpected)
    case Some(ty) => AliasBind(toks, st.(structs := t.val.structs), ty, t.pos)
  }

  /** The rest of a typedef once its type is known: the new name is bound. */
  function AliasBind(toks: seq<Token>, st: State, ty: Type, pos: nat): (r: PResult<State>)
    ensures r.Success? ==> r.value.pos == pos + 2 && r.value.val == st.(aliases := r.value.val.aliases)
  {
    var n :- AliasName(CtxOf(toks, st), pos);
    Success(At(st.(aliases := Bind(st.aliases, n.val, ty)), n.pos))
  }

  /** The new name of a typedef and the `;` after it. */
  function AliasName(c: Ctx, pos: nat): (r: PResult<string>)
    ensures r.Success? ==> r.value.pos == pos + 2 && AtIdent(c, pos) && AtKeyword(c, pos + 1, ";")
  {
    var id :- ExpectIdent(c, pos);
    var semi :- Expect(c, id.pos, ";");
    Success(At(id.val, semi.pos))
  }


  /** After `struct`: a struct declaration, optionally declaring a global of
      that type. */
  function StructItem(toks: seq<Token>, st: State, pos: nat): (r: PResult<State>)
    requires pos <= |toks|
    ensures r.Success? ==> pos < r.value.pos <= |toks|
    ensures r.Success? ==> r.value.val.functions == st.functions
  {
    var c := CtxOf(toks, st);
    var s :- ParseStruct(c, pos);
    var c' := c.(structs := s.val.structs);
    match s.val.decl
    case None =>
      var semi :- Expect(c', s.pos, ";");
      Success(At(st.(structs := s.val.structs), semi.pos))
    case Some(d) => GlobalTail(c', st.(structs := s.val.structs), d.ty, d.name, s.pos)
  }

  /** An item that starts with a type: a function definition or a global. */
  function TypedDecl(toks: seq<Token>, st: State, pos: nat): (r: PResult<State>)
    requires pos <= |toks|
    ensures r.Success? ==> pos < r.value.pos <= |toks|
  {
    var head :- TypedHead(CtxOf(toks, st), pos);
    TypedRest(toks, st, head.val.0, head.val.1, head.pos)
  }

  /** The type and the name that begin a function or a global. */
  function TypedHead(c: Ctx, pos: nat): (r: PResult<(Type, string)>)
    requires pos <= |c.toks|
    ensures r.Success? ==> pos < r.value.pos <= |c.toks|
  {
    var t :- TypeName(c, pos);
    var id :- ExpectIdent(c, t.pos);
    Success(At((t.val, id.val), id.pos))
  }

  /** After the type and the name: `(` starts a function definition, which
      captures the globals declared so far; anything else is a global. */
  function TypedRest(toks: seq<Token>, st: State, ty: Type, name: string, pos: nat): (r: PResult<State>)
    requires pos <= |toks|
    ensures r.Success? ==> pos < r.value.pos <= |toks|
  {
    var c := CtxOf(toks, st);
    if AtKeyword(c, pos, "(") then
      var f :- FuncDef(c, ty, name, st.globals, pos + 1);
      Success(At(st.(functions := st.functions + [f.val]), f.pos))
    else GlobalTail(c, st, ty, name, pos)
  }

  /** The rest of a global declaration after its name: array suffixes, an
      optional initializer and `;`; the global replaces any of the same name. */
  function GlobalTail(c: Ctx, st: State, ty: Type, name: string, pos: nat): (r: PResult<State>)
    requires pos <= |c.toks|
    ensures r.Success? ==> pos < r.value.pos <= |c.toks|
  {
    var arr :- TypeArray(c, ty, pos);
    var init :- Initializer(c, arr.pos);
    var semi :- Expect(c, init.pos, ";");
    Success(At(st.(globals := st.globals[name := Global(name, arr.val, init.val)]), semi.pos))
  }

  /** parse(): top-level items until the tokens run out. */
  function ParseFrom(toks: seq<Token>, st: State, pos: nat): (r: PResult<State>)
    requires pos <= |toks|
    ensures r.Success? ==> r.value.pos == |toks|
    decreases |toks| - pos
  {
    if pos < |toks| then
      var next :- Toplevel(toks, st, pos);
      ParseFrom(toks, next.val, next.pos)
    else Success(At(st, pos))
  }

  /** The state parse() starts from: the builtin aliases under a global alias
      scope, one empty struct scope, no globals and no functions. */
  function Initial(builtins: map<string, Type>): State
  {
    State([builtins, map[]], [map[]], map[], [])
  }

  /** parse(): top-level items until the tokens run out. */
  function Parse(toks: seq<Token>, builtins: map<string, Type>): (r: PResult<State>)
    ensures r.Success? ==> r.value.pos == |toks|
  {
    ParseFrom(toks, Initial(builtins), 0)
  }
}
