/**
 * The recursive-descent parser of parse.c as an object: the token cursor, the
 * alias and struct scope chains, the global table and the function list are
 * fields that the methods update in place.  Every method is proved to return
 * what the Grammar function of the same name describes and to leave the cursor
 * where that function says.
 */
module Parser {
  import opened Syntax
  import opened Grammar

  /** Token_kind */
  datatype TokenKind = KeywordKind | IdentKind | NumberKind | StringKind | CharKind

  function KindOf(t: Token): TokenKind
  {
    match t
    case Keyword(_) => KeywordKind
    case Ident(_) => IdentKind
    case Number(_) => NumberKind
    case StringLit(_) => StringKind
    case CharLit(_) => CharKind
  }

  class Parser {
    const toks: seq<Token>
    var index: nat
    var aliases: Scopes
    var structs: Scopes
    var globals: map<string, Global>
    var functions: seq<Func>

    /** The part of the state that the grammar routines read. */
    function Context(): Ctx
      reads this`aliases, this`structs
    {
      Ctx(toks, aliases, structs)
    }

    /** The part of the state that top-level items change. */
    function Snapshot(): State
      reads this`aliases, this`structs, this`globals, this`functions
    {
      State(aliases, structs, globals, functions)
    }

    /** parse() set-up: cursor at 0, the builtin aliases under a fresh alias
        scope, one empty struct scope, no globals, no functions. */
    constructor (tokens: seq<Token>, builtins: map<string, Type>)
      ensures toks == tokens && index == 0
      ensures Snapshot() == Initial(builtins)
    {
      toks := tokens;
      index := 0;
      aliases := [builtins, map[]];
      structs := [map[]];
      globals := map[];
      functions := [];
    }

    // -------------------------------------------------------------- cursor helpers

    /** lookahead_any: the next token, or None past the end. */
    method LookaheadAny() returns (tk: Option<Token>)
      ensures tk.Some? <==> index < |toks|
      ensures tk.Some? ==> tk.value == toks[index]
    {
      if index >= |toks| { return None; }
      return Some(toks[index]);
    }

    /** lookahead_keyword */
    method LookaheadKeyword(kw: string) returns (found: bool)
      ensures found <==> AtKeyword(Context(), index, kw)
    {
      var tk := LookaheadAny();
      found := tk == Some(Keyword(kw));
    }

    /** consume_keyword: advances by one exactly when the next token is `kw`. */
    method ConsumeKeyword(kw: string) returns (tk: Option<Token>)
      modifies this`index
      ensures tk.Some? <==> AtKeyword(Context(), old(index), kw)
      ensures tk.Some? ==> tk.value == Keyword(kw)
      ensures index == if tk.Some? then old(index) + 1 else old(index)
    {
      var next := LookaheadAny();
      if next != Some(Keyword(kw)) { return None; }
      index := index + 1;
      return next;
    }

    /** consume(kind): advances by one exactly when the next token has that
        kind.  Past the end it matches nothing (the source reads out of range). */
    method Consume(kind: TokenKind) returns (tk: Option<Token>)
      modifies this`index
      ensures tk.Some? <==> old(index) < |toks| && KindOf(toks[old(index)]) == kind
      ensures tk.Some? ==> tk.value == toks[old(index)]
      ensures index == if tk.Some? then old(index) + 1 else old(index)
    {
      if index >= |toks| || KindOf(toks[index]) != kind { return None; }
      tk := Some(toks[index]);
      index := index + 1;
    }

    /** expect_keyword: advances by one, or fails. */
    method ExpectKeyword(kw: string) returns (r: PResult<Token>)
      modifies this`index
      ensures r == Expect(Context(), old(index), kw)
      ensures index == if r.Success? then old(index) + 1 else old(index)
    {
      var tk := LookaheadAny();
      if tk != Some(Keyword(kw)) { return Failure(ExpectedKeyword(kw)); }
      index := index + 1;
      return Success(At(tk.value, index));
    }

    /** expect(TK_IDT): advances by one, or fails. */
    method ExpectIdentifier() returns (r: PResult<string>)
      modifies this`index
      ensures r == ExpectIdent(Context(), old(index))
      ensures index == if r.Success? then old(index) + 1 else old(index)
    {
      var tk := LookaheadAny();
      if tk.None? || !tk.value.Ident? { return Failure(ExpectedIdent); }
      index := index + 1;
      return Success(At(tk.value.name, index));
    }

    /** lookahead_var_decl: `struct`, or an identifier bound as an alias. */
    method LookaheadVarDecl() returns (b: bool)
      ensures b == StartsDecl(Context(), index)
    {
      var isStruct := LookaheadKeyword("struct");
      if isStruct { return true; }
      var tk := LookaheadAny();
      b := tk.Some? && tk.value.Ident? && Find(aliases, tk.value.name).Some?;
    }

    // -------------------------------------------------------------- types

    /** type_pointer: one pointer layer per `*`. */
    method TypePointer(t: Type) returns (r: Type)
      requires index <= |toks|
      modifies this`index
      ensures At(r, index) == Grammar.TypePointer(Context(), t, old(index))
    {
      r := t;
      while true
        invariant old(index) <= index <= |toks|
        invariant Grammar.TypePointer(Context(), t, old(index)) == Grammar.TypePointer(Context(), r, index)
        decreases |toks| - index
      {
        var star := ConsumeKeyword("*");
        if star.None? { return; }
        r := PtrTo(r);
      }
    }

    /** type_array: one array layer per `[N]`. */
    method TypeArray(t: Type) returns (r: PResult<Type>)
      requires index <= |toks|
      modifies this`index
      ensures index <= |toks|
      ensures r == Grammar.TypeArray(Context(), t, old(index))
      ensures r.Success? ==> index == r.value.pos
    {
      var ty := t;
      while true
        invariant old(index) <= index <= |toks|
        invariant Grammar.TypeArray(Context(), t, old(index)) == Grammar.TypeArray(Context(), ty, index)
        decreases |toks| - index
      {
        var open := ConsumeKeyword("[");
        if open.None? { return Success(At(ty, index)); }
        var len := Consume(NumberKind);
        if len.None? { return Failure(MissingArrayLength); }
        ty := ArrayOf(ty, len.value.value);
        var close := ExpectKeyword("]");
        if close.Failure? { return Failure(close.error); }
      }
    }

    /** consume_type_identifier: the alias bound to the next identifier. */
    method ConsumeTypeIdentifier() returns (r: PResult<Option<Type>>)
      requires index <= |toks|
      modifies this`index
      ensures index <= |toks|
      ensures r.Success? <==> AtIdent(Context(), old(index))
      ensures r.Failure? ==> r.error == NotATypeName && index == old(index)
      ensures r.Success? ==> r.value.val == Find(aliases, toks[old(index)].name)
      ensures r.Success? ==> index == r.value.pos ==
                               if r.value.val.Some? then old(index) + 1 else old(index)
    {
      var id := LookaheadAny();
      if id.None? || !id.value.Ident? { return Failure(NotATypeName); }
      var t := Find(aliases, id.value.name);
      if t.Some? { index := index + 1; }
      return Success(At(t, index));
    }

    /** consume_type_pre */
    method ConsumeTypePre() returns (r: PResult<Option<Type>>)
      requires index <= |toks|
      modifies this`index
      ensures index <= |toks|
      ensures r == TypePre(Context(), old(index))
      ensures r.Success? ==> index == r.value.pos
    {
      var kw := ConsumeKeyword("struct");
      var t: Option<Type>;
      if kw.Some? {
        var id := ExpectIdentifier();
        if id.Failure? { return Failure(id.error); }
        t := Find(structs, id.value.val);
      } else {
        var a := ConsumeTypeIdentifier();
        if a.Failure? { return Failure(a.error); }
        t := a.value.val;
      }
      if t.None? { return Success(At(None, index)); }
      var p := TypePointer(t.value);
      return Success(At(Some(p), index));
    }

    /** type(): fails with "unknown type" when no type is found. */
    method TypeName() returns (r: PResult<Type>)
      requires index <= |toks|
      modifies this`index
      ensures index <= |toks|
      ensures r == Grammar.TypeName(Context(), old(index))
      ensures r.Success? ==> index == r.value.pos
    {
      var t := ConsumeTypePre();
      if t.Failure? { return Failure(t.error); }
      if t.value.val.None? { return Failure(UnknownType); }
      return Success(At(t.value.val.value, index));
    }

    /** var_decl: a type, a name, then array suffixes. */
    method VarDeclare() returns (r: PResult<Decl>)
      requires index <= |toks|
      modifies this`index
      ensures index <= |toks|
      ensures r == Grammar.VarDeclare(Context(), old(index))
      ensures r.Success? ==> index == r.value.pos
    {
      var t := TypeName();
      if t.Failure? { return Failure(t.error); }
      var id := ExpectIdentifier();
      if id.Failure? { return Failure(id.error); }
      var arr := TypeArray(t.value.val);
      if arr.Failure? { return Failure(arr.error); }
      return Success(At(Decl(id.value.val, arr.value.val), index));
    }

    /** params(), entered after `(`. */
    method Params() returns (r: PResult<seq<Decl>>)
      requires index <= |toks|
      modifies this`index
      ensures index <= |toks|
      ensures r == Grammar.Params(Context(), old(index))
      ensures r.Success? ==> index == r.value.pos
    {
      var close := ConsumeKeyword(")");
      if close.Some? { return Success(At([], index)); }
      var first := VarDeclare();
      if first.Failure? { return Failure(first.error); }
      var ps := [first.value.val];
      while true
        invariant old(index) <= index <= |toks|
        invariant Grammar.Params(Context(), old(index)) == ParamsTail(Context(), ps, index)
        decreases |toks| - index
      {
        close := ConsumeKeyword(")");
        if close.Some? { return Success(At(ps, index)); }
        var d := NextParam();
        if d.Failure? { return Failure(d.error); }
        ps := ps + [d.value.val];
      }
    }

    /** `,` and the next parameter's declaration. */
    method NextParam() returns (r: PResult<Decl>)
      requires index <= |toks|
      modifies this`index
      ensures index <= |toks|
      ensures r == Grammar.NextParam(Context(), old(index))
      ensures r.Success? ==> index == r.value.pos
    {
      var comma := ExpectKeyword(",");
      if comma.Failure? { return Failure(comma.error); }
      r := VarDeclare();
    }

    // -------------------------------------------------------------- expressions

    /** expr() */
    method Expr() returns (r: PResult<Node>)
      requires index <= |toks|
      modifies this`index
      decreases |toks| - index, 33
      ensures index <= |toks|
      ensures r == Grammar.Expr(Context(), old(index))
      ensures r.Success? ==> index == r.value.pos
    {
      var first := Assignment();
      if first.Failure? { return Failure(first.error); }
      var node := first.value.val;
      while true
        invariant old(index) <= index <= |toks|
        invariant Grammar.Expr(Context(), old(index)) == SeqTail(Context(), node, index)
        decreases |toks| - index
      {
        var comma := ConsumeKeyword(",");
        if comma.None? { return Success(At(node, index)); }
        var rhs := Assignment();
        if rhs.Failure? { return Failure(rhs.error); }
        node := Binop(Comma, node, rhs.value.val);
      }
    }

    /** assignment() */
    method Assignment() returns (r: PResult<Node>)
      requires index <= |toks|
      modifies this`index
      decreases |toks| - index, 32
      ensures index <= |toks|
      ensures r == Grammar.Assignment(Context(), old(index))
      ensures r.Success? ==> index == r.value.pos
    {
      var lhs := Conditional();
      if lhs.Failure? { return Failure(lhs.error); }
      var eq := ConsumeKeyword("=");
      if eq.None? { return lhs; }
      var rhs := Expr();
      if rhs.Failure? { return Failure(rhs.error); }
      return Success(At(Binop(Assign, lhs.value.val, rhs.value.val), index));
    }

    /** conditional() */
    method Conditional() returns (r: PResult<Node>)
      requires index <= |toks|
      modifies this`index
      decreases |toks| - index, 31
      ensures index <= |toks|
      ensures r == Grammar.Conditional(Context(), old(index))
      ensures r.Success? ==> index == r.value.pos
    {
      var test := Level(0);
      if test.Failure? { return Failure(test.error); }
      var q := ConsumeKeyword("?");
      if q.None? { return test; }
      r := CondArms(test.value.val);
    }

    /** The arms of a conditional, after `?`. */
    method CondArms(test: Node) returns (r: PResult<Node>)
      requires index <= |toks|
      modifies this`index
      decreases |toks| - index, 34
      ensures index <= |toks|
      ensures r == Grammar.CondArms(Context(), test, old(index))
      ensures r.Success? ==> index == r.value.pos
    {
      var yes := Expr();
      if yes.Failure? { return Failure(yes.error); }
      var colon := ExpectKeyword(":");
      if colon.Failure? { return Failure(colon.error); }
      var no := Conditional();
      if no.Failure? { return Failure(no.error); }
      return Success(At(Cond(test, yes.value.val, no.value.val), index));
    }

    /** Tries the operators of one level in order and consumes the first that
        is the next token. */
    method ConsumeOperator(ops: seq<OpEntry>) returns (e: Option<OpEntry>)
      modifies this`index
      ensures e == MatchOp(Context(), old(index), ops)
      ensures index == if e.Some? then old(index) + 1 else old(index)
    {
      var i := 0;
      while i < |ops|
        invariant 0 <= i <= |ops| && index == old(index)
        invariant MatchOp(Context(), index, ops) == MatchOp(Context(), index, ops[i..])
      {
        var tk := ConsumeKeyword(ops[i].kw);
        if tk.Some? { return Some(ops[i]); }
        assert ops[i..][1..] == ops[i + 1..];
        i := i + 1;
      }
      return None;
    }

    /** logical_or() ... mul(): one loop per level, building a left-leaning tree. */
    method Level(lvl: nat) returns (r: PResult<Node>)
      requires index <= |toks| && lvl < |Levels|
      modifies this`index
      decreases |toks| - index, 30 - 2 * lvl
      ensures index <= |toks|
      ensures r == Grammar.Level(Context(), old(index), lvl)
      ensures r.Success? ==> index == r.value.pos
    {
      var first := Operand(lvl);
      if first.Failure? { return Failure(first.error); }
      var node := first.value.val;
      while true
        invariant old(index) <= index <= |toks|
        invariant Grammar.Level(Context(), old(index), lvl) == LevelTail(Context(), lvl, node, index)
        decreases |toks| - index
      {
        var e := ConsumeOperator(Levels[lvl]);
        if e.None? { return Success(At(node, index)); }
        var rhs := Operand(lvl);
        if rhs.Failure? { return Failure(rhs.error); }
        node := if e.value.swapped then Binop(e.value.op, rhs.value.val, node)
                else Binop(e.value.op, node, rhs.value.val);
      }
    }

    method Operand(lvl: nat) returns (r: PResult<Node>)
      requires index <= |toks| && lvl < |Levels|
      modifies this`index
      decreases |toks| - index, 29 - 2 * lvl
      ensures index <= |toks|
      ensures r == Grammar.Operand(Context(), old(index), lvl)
      ensures r.Success? ==> index == r.value.pos
    {
      if lvl + 1 < |Levels| {
        r := Level(lvl + 1);
      } else {
        r := UnaryExpr();
      }
    }

    /** unary() */
    method UnaryExpr() returns (r: PResult<Node>)
      requires index <= |toks|
      modifies this`index
      decreases |toks| - index, 10
      ensures index <= |toks|
      ensures r == Grammar.UnaryExpr(Context(), old(index))
      ensures r.Success? ==> index == r.value.pos
    {
      var tk := ConsumeKeyword("sizeof");
      if tk.Some? {
        var e := UnaryExpr();
        if e.Failure? { return Failure(e.error); }
        return Success(At(Unop(SizeOf, e.value.val), index));
      }
      tk := ConsumeKeyword("+");
      if tk.Some? {
        r := Term();
        return;
      }
      tk := ConsumeKeyword("-");
      if tk.Some? {
        var e := Term();
        if e.Failure? { return Failure(e.error); }
        return Success(At(Binop(Sub, Num(0), e.value.val), index));
      }
      tk := ConsumeKeyword("&");
      if tk.Some? {
        var e := Level(MulLevel);
        if e.Failure? { return Failure(e.error); }
        return Success(At(Unop(Addr, e.value.val), index));
      }
      tk := ConsumeKeyword("*");
      if tk.Some? {
        var e := Level(MulLevel);
        if e.Failure? { return Failure(e.error); }
        return Success(At(Unop(Deref, e.value.val), index));
      }
      tk := ConsumeKeyword("!");
      if tk.Some? {
        var e := UnaryExpr();
        if e.Failure? { return Failure(e.error); }
        return Success(At(Unop(LogNot, e.value.val), index));
      }
      r := Term();
    }

    /** term(): a primary, then the postfix loop. */
    method Term() returns (r: PResult<Node>)
      requires index <= |toks|
      modifies this`index
      decreases |toks| - index, 9
      ensures index <= |toks|
      ensures r == Grammar.Term(Context(), old(index))
      ensures r.Success? ==> index == r.value.pos
    {
      var p := PrimaryPart();
      if p.Failure? { return Failure(p.error); }
      r := Postfix(p.value.val);
    }

    /** The postfix loop of term(): subscripts, `.` and `->`. */
    method Postfix(acc: Node) returns (r: PResult<Node>)
      requires index <= |toks|
      modifies this`index
      decreases |toks| - index, 1
      ensures index <= |toks|
      ensures r == PostfixTail(Context(), acc, old(index))
      ensures r.Success? ==> index == r.value.pos
    {
      var node := acc;
      while true
        invariant old(index) <= index <= |toks|
        invariant PostfixTail(Context(), acc, old(index)) == PostfixTail(Context(), node, index)
        decreases |toks| - index
      {
        var op := PostfixOp(node);
        if op.Failure? { return Failure(op.error); }
        if op.value.val.None? { return Success(At(node, index)); }
        node := op.value.val.value;
      }
    }

    /** One postfix operator, if the next token starts one. */
    method PostfixOp(acc: Node) returns (r: PResult<Option<Node>>)
      requires index <= |toks|
      modifies this`index
      decreases |toks| - index, 0
      ensures index <= |toks|
      ensures r == Grammar.PostfixOp(Context(), acc, old(index))
      ensures r.Success? ==> index == r.value.pos
    {
      var tk := ConsumeKeyword("[");
      if tk.Some? {
        var sub := Subscript(acc);
        if sub.Failure? { return Failure(sub.error); }
        return Success(At(Some(sub.value.val), index));
      }
      tk := ConsumeKeyword(".");
      if tk.Some? {
        var f := ExpectIdentifier();
        if f.Failure? { return Failure(f.error); }
        return Success(At(Some(Attr(acc, f.value.val)), index));
      }
      tk := ConsumeKeyword("->");
      if tk.None? { return Success(At(None, index)); }
      var f := ExpectIdentifier();
      if f.Failure? { return Failure(f.error); }
      return Success(At(Some(Attr(Unop(Deref, acc), f.value.val)), index));
    }

    /** A subscript, after `[`. */
    method Subscript(acc: Node) returns (r: PResult<Node>)
      requires index <= |toks|
      modifies this`index
      decreases |toks| - index, 34
      ensures index <= |toks|
      ensures r == Grammar.Subscript(Context(), acc, old(index))
      ensures r.Success? ==> index == r.value.pos
    {
      var i := Expr();
      if i.Failure? { return Failure(i.error); }
      var close := ExpectKeyword("]");
      if close.Failure? { return Failure(close.error); }
      return Success(At(Unop(Deref, Binop(Add, acc, i.value.val)), index));
    }

    /** The part of term() before the postfix loop. */
    method PrimaryPart() returns (r: PResult<Node>)
      requires index <= |toks|
      modifies this`index
      decreases |toks| - index, 8
      ensures index <= |toks|
      ensures r == Primary(Context(), old(index))
      ensures r.Success? ==> index == r.value.pos && old(index) < index
    {
      var node: Option<Node> := None;
      var open := ConsumeKeyword("(");
      if open.Some? {
        var e := Expr();
        if e.Failure? { return Failure(e.error); }
        var close := ExpectKeyword(")");
        if close.Failure? { return Failure(close.error); }
        node := Some(e.value.val);
      }
      r := Atom(node);
    }

    /** The identifier, number, string or character that ends a primary; with
        no such token the parenthesised expression before it stands alone. */
    method Atom(prior: Option<Node>) returns (r: PResult<Node>)
      requires index <= |toks|
      modifies this`index
      decreases |toks| - index, 7
      ensures index <= |toks|
      ensures r == Grammar.Atom(Context(), old(index), prior)
      ensures r.Success? ==> index == r.value.pos
      ensures r.Success? && prior.None? ==> old(index) < index
    {
      var tk := Consume(IdentKind);
      if tk.Some? {
        var call := ConsumeKeyword("(");
        if call.None? { return Success(At(Var(tk.value.name, 0), index)); }
        var args := ListUntil(")");
        if args.Failure? { return Failure(args.error); }
        return Success(At(Call(tk.value.name, args.value.val), index));
      }
      tk := Consume(NumberKind);
      if tk.Some? { return Success(At(Num(tk.value.value), index)); }
      tk := Consume(StringKind);
      if tk.Some? { return Success(At(Str(tk.value.text), index)); }
      tk := Consume(CharKind);
      if tk.Some? { return Success(At(Chr(tk.value.value), index)); }
      if prior.None? { return Failure(InvalidExpression); }
      return Success(At(prior.value, index));
    }

    /** args() and array(): assignment() items separated by `,` up to `close`. */
    method ListUntil(close: string) returns (r: PResult<seq<Node>>)
      requires index <= |toks|
      modifies this`index
      decreases |toks| - index, 35
      ensures index <= |toks|
      ensures r == List(Context(), old(index), close)
      ensures r.Success? ==> index == r.value.pos
    {
      var done := ConsumeKeyword(close);
      if done.Some? { return Success(At([], index)); }
      var first := Assignment();
      if first.Failure? { return Failure(first.error); }
      var items := [first.value.val];
      while true
        invariant old(index) <= index <= |toks|
        invariant List(Context(), old(index), close) == ListTail(Context(), items, index, close)
        decreases |toks| - index
      {
        done := ConsumeKeyword(close);
        if done.Some? { return Success(At(items, index)); }
        var e := NextItem();
        if e.Failure? { return Failure(e.error); }
        items := items + [e.value.val];
      }
    }

    /** `,` and the next element of a list. */
    method NextItem() returns (r: PResult<Node>)
      requires index <= |toks|
      modifies this`index
      decreases |toks| - index, 0
      ensures index <= |toks|
      ensures r == Grammar.NextItem(Context(), old(index))
      ensures r.Success? ==> index == r.value.pos
    {
      var comma := ExpectKeyword(",");
      if comma.Failure? { return Failure(comma.error); }
      r := Assignment();
    }

    /** rhs_expr() */
    method RhsExpr() returns (r: PResult<Node>)
      requires index <= |toks|
      modifies this`index
      ensures index <= |toks|
      ensures r == Grammar.RhsExpr(Context(), old(index))
      ensures r.Success? ==> index == r.value.pos
    {
      var open := ConsumeKeyword("{");
      if open.Some? {
        var es := ListUntil("}");
        if es.Failure? { return Failure(es.error); }
        return Success(At(ArrayLit(es.value.val), index));
      }
      r := Expr();
    }

    /** `consume_keyword("=") ? rhs_expr() : NULL` */
    method Initializer() returns (r: PResult<Option<Node>>)
      requires index <= |toks|
      modifies this`index
      ensures index <= |toks|
      ensures r == Grammar.Initializer(Context(), old(index))
      ensures r.Success? ==> index == r.value.pos
    {
      var eq := ConsumeKeyword("=");
      if eq.None? { return Success(At(None, index)); }
      var e := RhsExpr();
      if e.Failure? { return Failure(e.error); }
      return Success(At(Some(e.value.val), index));
    }
    // -------------------------------------------------------------- statements

    /** stmt(): dispatches on the next token. */
    method Stmt() returns (r: PResult<Node>)
      requires index <= |toks|
      modifies this`index, this`structs
      decreases |toks| - index, 40
      ensures index <= |toks|
      ensures r == Grammar.Stmt(old(Context()), old(index))
      ensures r.Success? ==> index == r.value.pos && structs == old(structs)
    {
      var tk := LookaheadAny();
      if tk == Some(Keyword("return")) {
        r := ReturnStmt();
      } else if tk == Some(Keyword("if")) {
        r := IfStmt();
      } else if tk == Some(Keyword("while")) {
        r := WhileStmt();
      } else if tk == Some(Keyword("for")) {
        r := ForStmt();
      } else if tk == Some(Keyword("do")) {
        r := DoWhileStmt();
      } else {
        r := SimpleStmt();
      }
    }

    /** The statements that start with no compound-statement keyword:
        `break`, `continue`, a block, a declaration or an expression. */
    method SimpleStmt() returns (r: PResult<Node>)
      requires index <= |toks|
      requires !AtKeyword(Context(), index, "return") && !AtKeyword(Context(), index, "if")
      requires !AtKeyword(Context(), index, "while") && !AtKeyword(Context(), index, "for")
      requires !AtKeyword(Context(), index, "do")
      modifies this`index, this`structs
      decreases |toks| - index, 39
      ensures index <= |toks|
      ensures r == Grammar.Stmt(old(Context()), old(index))
      ensures r.Success? ==> index == r.value.pos && structs == old(structs)
    {
      var tk := LookaheadAny();
      if tk == Some(Keyword("break")) || tk == Some(Keyword("continue")) {
        r := JumpStmt();
      } else if tk == Some(Keyword("{")) {
        var b := BlockStmts();
        if b.Failure? { return Failure(b.error); }
        r := Success(At(Block(b.value.val), index));
      } else {
        var decl := LookaheadVarDecl();
        if decl {
          r := DeclStmt();
        } else {
          r := ExprStmt();
        }
      }
    }

    /** `return ;` or `return expr ;` */
    method ReturnStmt() returns (r: PResult<Node>)
      requires index < |toks| && toks[index] == Keyword("return")
      modifies this`index
      ensures index <= |toks|
      ensures r == Grammar.ReturnStmt(Context(), old(index))
      ensures r.Success? ==> index == r.value.pos
    {
      var kw := ConsumeKeyword("return");
      var semi := ConsumeKeyword(";");
      if semi.Some? { return Success(At(Return(None), index)); }
      var e := Expr();
      if e.Failure? { return Failure(e.error); }
      var end := ExpectKeyword(";");
      if end.Failure? { return Failure(end.error); }
      return Success(At(Return(Some(e.value.val)), index));
    }

    /** `( expr )` after `if`, `while` and `do ... while`. */
    method Condition() returns (r: PResult<Node>)
      requires index <= |toks|
      modifies this`index
      decreases |toks| - index, 34
      ensures index <= |toks|
      ensures r == Grammar.Condition(Context(), old(index))
      ensures r.Success? ==> index == r.value.pos
    {
      var open := ExpectKeyword("(");
      if open.Failure? { return Failure(open.error); }
      var test := Expr();
      if test.Failure? { return Failure(test.error); }
      var close := ExpectKeyword(")");
      if close.Failure? { return Failure(close.error); }
      return Success(At(test.value.val, index));
    }

    /** `if ( expr ) stmt [else stmt]` */
    method IfStmt() returns (r: PResult<Node>)
      requires index < |toks| && toks[index] == Keyword("if")
      modifies this`index, this`structs
      decreases |toks| - index, 38
      ensures index <= |toks|
      ensures r == Grammar.IfStmt(old(Context()), old(index))
      ensures r.Success? ==> index == r.value.pos && structs == old(structs)
    {
      var kw := ConsumeKeyword("if");
      var test := Condition();
      if test.Failure? { return Failure(test.error); }
      r := IfBranches(test.value.val);
    }

    /** The branches of an `if`, after `)`. */
    method IfBranches(test: Node) returns (r: PResult<Node>)
      requires index <= |toks|
      modifies this`index, this`structs
      decreases |toks| - index, 41
      ensures index <= |toks|
      ensures r == Grammar.IfBranches(old(Context()), test, old(index))
      ensures r.Success? ==> index == r.value.pos && structs == old(structs)
    {
      var yes := Stmt();
      if yes.Failure? { return Failure(yes.error); }
      r := ElsePart(test, yes.value.val);
    }

    /** An optional `else` branch. */
    method ElsePart(test: Node, yes: Node) returns (r: PResult<Node>)
      requires index <= |toks|
      modifies this`index, this`structs
      decreases |toks| - index, 41
      ensures index <= |toks|
      ensures r == Grammar.ElsePart(old(Context()), test, yes, old(index))
      ensures r.Success? ==> index == r.value.pos && structs == old(structs)
    {
      var els := ConsumeKeyword("else");
      if els.None? { return Success(At(If(test, yes, None), index)); }
      r := ElseStmt(test, yes);
    }

    /** The `else` branch, after the keyword. */
    method ElseStmt(test: Node, yes: Node) returns (r: PResult<Node>)
      requires index <= |toks|
      modifies this`index, this`structs
      decreases |toks| - index, 41
      ensures index <= |toks|
      ensures r == Grammar.ElseStmt(old(Context()), test, yes, old(index))
      ensures r.Success? ==> index == r.value.pos && structs == old(structs)
    {
      r := Stmt();
      if r.Success? {
        r := Success(At(If(test, yes, Some(r.value.val)), index));
      }
    }

    /** `while ( expr ) stmt` */
    method WhileStmt() returns (r: PResult<Node>)
      requires index < |toks| && toks[index] == Keyword("while")
      modifies this`index, this`structs
      decreases |toks| - index, 38
      ensures index <= |toks|
      ensures r == Grammar.WhileStmt(old(Context()), old(index))
      ensures r.Success? ==> index == r.value.pos && structs == old(structs)
    {
      var kw := ConsumeKeyword("while");
      var test := Condition();
      if test.Failure? { return Failure(test.error); }
      var body := Stmt();
      if body.Failure? { return Failure(body.error); }
      return Success(At(While(test.value.val, body.value.val), index));
    }

    /** `for ( init ; cond ; step ) stmt`, each clause optional */
    method ForStmt() returns (r: PResult<Node>)
      requires index < |toks| && toks[index] == Keyword("for")
      modifies this`index, this`structs
      decreases |toks| - index, 38
      ensures index <= |toks|
      ensures r == Grammar.ForStmt(old(Context()), old(index))
      ensures r.Success? ==> index == r.value.pos && structs == old(structs)
    {
      var kw := ConsumeKeyword("for");
      var open := ExpectKeyword("(");
      if open.Failure? { return Failure(open.error); }
      var init := ForInit();
      if init.Failure? { return Failure(init.error); }
      var test := ForClause(";");
      if test.Failure? { return Failure(test.error); }
      var step := ForClause(")");
      if step.Failure? { return Failure(step.error); }
      var body := Stmt();
      if body.Failure? { return Failure(body.error); }
      return Success(At(For(init.value.val, test.value.val, step.value.val, body.value.val), index));
    }

    /** The first clause of a `for`, through its `;`. */
    method ForInit() returns (r: PResult<Option<Node>>)
      requires index <= |toks|
      modifies this`index
      ensures index <= |toks|
      ensures r == Grammar.ForInit(Context(), old(index))
      ensures r.Success? ==> index == r.value.pos
    {
      var semi := ConsumeKeyword(";");
      if semi.Some? { return Success(At(None, index)); }
      var decl := LookaheadVarDecl();
      var node: Node;
      if decl {
        var d := VarDeclare();
        if d.Failure? { return Failure(d.error); }
        var init := Initializer();
        if init.Failure? { return Failure(init.error); }
        node := VarDecl(d.value.val, init.value.val);
      } else {
        var e := Expr();
        if e.Failure? { return Failure(e.error); }
        node := e.value.val;
      }
      var end := ExpectKeyword(";");
      if end.Failure? { return Failure(end.error); }
      return Success(At(Some(node), index));
    }

    /** The condition (closed by `;`) or the step (closed by `)`) of a `for`. */
    method ForClause(close: string) returns (r: PResult<Option<Node>>)
      requires index <= |toks|
      modifies this`index
      ensures index <= |toks|
      ensures r == Grammar.ForClause(Context(), old(index), close)
      ensures r.Success? ==> index == r.value.pos
    {
      var done := ConsumeKeyword(close);
      if done.Some? { return Success(At(None, index)); }
      var e := Expr();
      if e.Failure? { return Failure(e.error); }
      var end := ExpectKeyword(close);
      if end.Failure? { return Failure(end.error); }
      return Success(At(Some(e.value.val), index));
    }

    /** `do stmt while ( expr ) ;` */
    method DoWhileStmt() returns (r: PResult<Node>)
      requires index < |toks| && toks[index] == Keyword("do")
      modifies this`index, this`structs
      decreases |toks| - index, 38
      ensures index <= |toks|
      ensures r == Grammar.DoStmt(old(Context()), old(index))
      ensures r.Success? ==> index == r.value.pos && structs == old(structs)
    {
      var kw := ConsumeKeyword("do");
      var body := Stmt();
      if body.Failure? { return Failure(body.error); }
      r := DoTail(body.value.val);
    }

    /** `while ( expr ) ;` after the body of a `do`. */
    method DoTail(body: Node) returns (r: PResult<Node>)
      requires index <= |toks|
      modifies this`index
      ensures index <= |toks|
      ensures r == Grammar.DoTail(Context(), body, old(index))
      ensures r.Success? ==> index == r.value.pos
    {
      var w := ExpectKeyword("while");
      if w.Failure? { return Failure(w.error); }
      var test := Condition();
      if test.Failure? { return Failure(test.error); }
      var semi := ExpectKeyword(";");
      if semi.Failure? { return Failure(semi.error); }
      return Success(At(DoWhile(body, test.value.val), index));
    }

    /** `break ;` and `continue ;` */
    method JumpStmt() returns (r: PResult<Node>)
      requires index < |toks| && (toks[index] == Keyword("break") || toks[index] == Keyword("continue"))
      modifies this`index
      ensures index <= |toks|
      ensures r == Grammar.Stmt(Context(), old(index))
      ensures r.Success? ==> index == r.value.pos
    {
      var brk := ConsumeKeyword("break");
      if brk.None? {
        var cont := ConsumeKeyword("continue");
      }
      var semi := ExpectKeyword(";");
      if semi.Failure? { return Failure(semi.error); }
      return Success(At(if brk.Some? then Break else Continue, index));
    }

    /** A local declaration statement: `type name [= init] ;` */
    method DeclStmt() returns (r: PResult<Node>)
      requires index <= |toks|
      modifies this`index
      ensures index <= |toks|
      ensures r == Grammar.DeclStmt(Context(), old(index))
      ensures r.Success? ==> index == r.value.pos
    {
      var d := VarDeclare();
      if d.Failure? { return Failure(d.error); }
      var init := Initializer();
      if init.Failure? { return Failure(init.error); }
      var semi := ExpectKeyword(";");
      if semi.Failure? { return Failure(semi.error); }
      return Success(At(VarDecl(d.value.val, init.value.val), index));
    }

    /** An expression statement: `expr ;` */
    method ExprStmt() returns (r: PResult<Node>)
      requires index <= |toks|
      modifies this`index
      ensures index <= |toks|
      ensures r == Grammar.ExprStmt(Context(), old(index))
      ensures r.Success? ==> index == r.value.pos
    {
      var e := Expr();
      if e.Failure? { return Failure(e.error); }
      var semi := ExpectKeyword(";");
      if semi.Failure? { return Failure(semi.error); }
      return Success(At(e.value.val, index));
    }

    /** block(): `{ stmt* }` in a fresh struct scope, dropped again at `}`. */
    method BlockStmts() returns (r: PResult<seq<Node>>)
      requires index <= |toks|
      modifies this`index, this`structs
      decreases |toks| - index, 38
      ensures index <= |toks|
      ensures r == Grammar.BlockStmts(old(Context()), old(index))
      ensures r.Success? ==> index == r.value.pos && structs == old(structs)
    {
      var outer := structs;
      structs := structs + [map[]];
      var open := ExpectKeyword("{");
      if open.Failure? { return Failure(open.error); }
      var stmts: seq<Node> := [];
      while true
        invariant old(index) < index <= |toks|
        invariant structs == outer + [map[]]
        invariant Grammar.BlockStmts(old(Context()), old(index)) == StmtsTail(Context(), stmts, index)
        decreases |toks| - index
      {
        var close := ConsumeKeyword("}");
        if close.Some? {
          structs := outer;
          return Success(At(stmts, index));
        }
        var s := Stmt();
        if s.Failure? { return Failure(s.error); }
        stmts := stmts + [s.value.val];
      }
    }

    // -------------------------------------------------------------- top level

    /** The fields of a struct body, through its `}`. */
    method Fields() returns (r: PResult<seq<Decl>>)
      requires index <= |toks|
      modifies this`index
      ensures index <= |toks|
      ensures r == FieldsTail(Context(), [], old(index))
      ensures r.Success? ==> index == r.value.pos
    {
      var fields: seq<Decl> := [];
      while true
        invariant old(index) <= index <= |toks|
        invariant FieldsTail(Context(), [], old(index)) == FieldsTail(Context(), fields, index)
        decreases |toks| - index
      {
        var close := ConsumeKeyword("}");
        if close.Some? { return Success(At(fields, index)); }
        var f := Field();
        if f.Failure? { return Failure(f.error); }
        fields := fields + [f.value.val];
      }
    }

    /** One struct member and its `;`. */
    method Field() returns (r: PResult<Decl>)
      requires index <= |toks|
      modifies this`index
      ensures index <= |toks|
      ensures r == Grammar.Field(Context(), old(index))
      ensures r.Success? ==> index == r.value.pos
    {
      var d := VarDeclare();
      if d.Failure? { return Failure(d.error); }
      var semi := ExpectKeyword(";");
      if semi.Failure? { return Failure(semi.error); }
      return Success(At(d.value.val, index));
    }

    /** struct_pre(), entered after `struct`: registers a named struct in the
        innermost struct scope. */
    method StructPre() returns (r: PResult<Tagged>)
      requires index <= |toks|
      modifies this`index, this`structs
      ensures index <= |toks|
      ensures r == Grammar.StructPre(old(Context()), old(index))
      ensures r.Success? ==> index == r.value.pos && structs == r.value.val.structs
    {
      var id := Consume(IdentKind);
      var tag: Option<string> := if id.Some? then Some(id.value.name) else None;
      var base := StructBase(tag);
      if base.Failure? { return Failure(base.error); }
      if base.value.val.None? { return Success(At(Tagged(None, structs), index)); }
      var ty := base.value.val.value;
      ghost var c := Context();
      structs := Register(structs, ty);
      TypePointerReadsTokens(c, Context(), ty, index);
      var p := TypePointer(ty);
      return Success(At(Tagged(Some(p), structs), index));
    }

    /** The struct type before any `*`: a body, or a lookup of the tag. */
    method StructBase(tag: Option<string>) returns (r: PResult<Option<Type>>)
      requires index <= |toks|
      modifies this`index
      ensures index <= |toks|
      ensures r == Grammar.StructBase(Context(), tag, old(index))
      ensures r.Success? ==> index == r.value.pos
    {
      var open := ConsumeKeyword("{");
      if open.Some? {
        var fields := Fields();
        if fields.Failure? { return Failure(fields.error); }
        return Success(At(Some(StructType(tag, fields.value.val)), index));
      }
      if tag.None? { return Failure(InvalidStruct); }
      var found := Find(structs, tag.value);
      if found.None? {
        var star := LookaheadKeyword("*");
        if star { return Failure(IncompleteStructPointer); }
      }
      return Success(At(found, index));
    }

    /** parse_struct(), entered after `struct`: the declared name, if any. */
    method ParseStruct() returns (r: PResult<StructDecl>)
      requires index <= |toks|
      modifies this`index, this`structs
      ensures index <= |toks|
      ensures r == Grammar.ParseStruct(old(Context()), old(index))
      ensures r.Success? ==> index == r.value.pos && structs == r.value.val.structs
    {
      var t := StructPre();
      if t.Failure? { return Failure(t.error); }
      var id := Consume(IdentKind);
      if t.value.val.ty.None? || (id.None? && t.value.val.ty.value.PtrTo?) {
        return Failure(InvalidStructDecl);
      }
      if id.None? { return Success(At(StructDecl(None, structs), index)); }
      return Success(At(StructDecl(Some(Decl(id.value.name, t.value.val.ty.value)), structs), index));
    }

    /** func(), entered after `(`: records the globals visible at this point. */
    method FuncDef(ret: Type, name: string) returns (r: PResult<Func>)
      requires index <= |toks|
      modifies this`index, this`structs
      ensures index <= |toks|
      ensures r == Grammar.FuncDef(old(Context()), ret, name, globals, old(index))
      ensures r.Success? ==> index == r.value.pos && structs == old(structs)
    {
      var ps := Params();
      if ps.Failure? { return Failure(ps.error); }
      var body := BlockStmts();
      if body.Failure? { return Failure(body.error); }
      return Success(At(Func(name, ps.value.val, ret, body.value.val, globals), index));
    }

    /** toplevel(): parses one item and records it in the parser state. */
    method Toplevel() returns (err: Option<ParseError>)
      requires index < |toks|
      modifies this`index, this`aliases, this`structs, this`globals, this`functions
      ensures index <= |toks|
      ensures Reflects(Grammar.Toplevel(toks, old(Snapshot()), old(index)), err, Snapshot(), index)
    {
      var tk := LookaheadAny();
      if tk == Some(Keyword("typedef")) {
        err := TypedefItem();
      } else if tk == Some(Keyword("struct")) {
        err := StructItem();
      } else {
        assert !AtKeyword(Context(), index, "typedef") && !AtKeyword(Context(), index, "struct");
        err := TypedItem();
      }
    }

    /** `typedef type name ;`: binds the alias in the innermost alias scope. */
    method TypedefItem() returns (err: Option<ParseError>)
      requires index < |toks| && toks[index] == Keyword("typedef")
      modifies this`index, this`aliases, this`structs
      ensures index <= |toks|
      ensures Reflects(Grammar.TypedefDecl(toks, old(Snapshot()), old(index) + 1), err, Snapshot(), index)
    {
      assert CtxOf(toks, Snapshot()) == Context();
      var kw := ConsumeKeyword("typedef");
      var t := TypedefType();
      if t.Failure? {
        err := Some(t.error);
      } else if t.value.val.ty.None? {
        err := Some(TypeExpected);
      } else {
        err := AliasItem(t.value.val.ty.value);
      }
    }

    /** The end of a typedef: the name is bound to the type. */
    method AliasItem(ty: Type) returns (err: Option<ParseError>)
      requires index <= |toks|
      modifies this`index, this`aliases
      ensures index <= |toks|
      ensures Reflects(Grammar.AliasBind(toks, old(Snapshot()), ty, old(index)), err, Snapshot(), index)
    {
      var n := AliasName();
      if n.Failure? { return Some(n.error); }
      aliases := Bind(aliases, n.value.val, ty);
      return None;
    }

    /** The typedef's new name and its `;`. */
    method AliasName() returns (r: PResult<string>)
      requires index <= |toks|
      modifies this`index
      ensures index <= |toks|
      ensures r == Grammar.AliasName(Context(), old(index))
      ensures r.Success? ==> index == r.value.pos
    {
      var id := ExpectIdentifier();
      if id.Failure? { return Failure(id.error); }
      var semi := ExpectKeyword(";");
      if semi.Failure? { return Failure(semi.error); }
      return Success(At(id.value.val, index));
    }

    /** The type after `typedef`: a struct_pre() or a consume_type_pre(). */
    method TypedefType() returns (r: PResult<Tagged>)
      requires index <= |toks|
      modifies this`index, this`structs
      ensures index <= |toks|
      ensures r == Grammar.TypedefType(old(Context()), old(index))
      ensures r.Success? ==> index == r.value.pos && structs == r.value.val.structs
    {
      var strc := ConsumeKeyword("struct");
      if strc.Some? {
        r := StructPre();
        return;
      }
      var t := ConsumeTypePre();
      if t.Failure? { return Failure(t.error); }
      return Success(At(Tagged(t.value.val, structs), index));
    }

    /** An item that starts with `struct`: a struct declaration, optionally
        declaring a global of that type. */
    method StructItem() returns (err: Option<ParseError>)
      requires index < |toks| && toks[index] == Keyword("struct")
      modifies this`index, this`structs, this`globals
      ensures index <= |toks|
      ensures Reflects(Grammar.StructItem(toks, old(Snapshot()), old(index) + 1), err, Snapshot(), index)
    {
      var kw := ConsumeKeyword("struct");
      var s := ParseStruct();
      if s.Failure? { return Some(s.error); }
      if s.value.val.decl.None? {
        var semi := ExpectKeyword(";");
        if semi.Failure? { return Some(semi.error); }
        return None;
      }
      var d := s.value.val.decl.value;
      var arr := TypeArray(d.ty);
      if arr.Failure? { return Some(arr.error); }
      var init := Initializer();
      if init.Failure? { return Some(init.error); }
      var semi := ExpectKeyword(";");
      if semi.Failure? { return Some(semi.error); }
      globals := globals[d.name := Global(d.name, arr.value.val, init.value.val)];
      return None;
    }

    /** An item that starts with a type: a function definition or a global. */
    method TypedItem() returns (err: Option<ParseError>)
      requires index <= |toks|
      modifies this`index, this`structs, this`globals, this`functions
      ensures index <= |toks|
      ensures Reflects(Grammar.TypedDecl(toks, old(Snapshot()), old(index)), err, Snapshot(), index)
    {
      var head := TypedHead();
      if head.Failure? { return Some(head.error); }
      err := TypedRest(head.value.val.0, head.value.val.1);
    }

    /** The type and the name of a top-level declaration. */
    method TypedHead() returns (r: PResult<(Type, string)>)
      requires index <= |toks|
      modifies this`index
      ensures index <= |toks|
      ensures r == Grammar.TypedHead(Context(), old(index))
      ensures r.Success? ==> index == r.value.pos
    {
      var t := TypeName();
      if t.Failure? { return Failure(t.error); }
      var id := ExpectIdentifier();
      if id.Failure? { return Failure(id.error); }
      return Success(At((t.value.val, id.value.val), index));
    }

    /** After the type and the name of an item: a function or a global. */
    method TypedRest(ty: Type, name: string) returns (err: Option<ParseError>)
      requires index <= |toks|
      modifies this`index, this`structs, this`globals, this`functions
      ensures index <= |toks|
      ensures Reflects(Grammar.TypedRest(toks, old(Snapshot()), ty, name, old(index)), err, Snapshot(), index)
    {
      var open := ConsumeKeyword("(");
      if open.Some? {
        var f := FuncDef(ty, name);
        if f.Failure? { return Some(f.error); }
        functions := functions + [f.value.val];
        return None;
      }
      err := GlobalRest(ty, name);
    }

    /** The rest of a global variable declaration, after its name. */
    method GlobalRest(ty: Type, name: string) returns (err: Option<ParseError>)
      requires index <= |toks|
      modifies this`index, this`globals
      ensures index <= |toks|
      ensures Reflects(GlobalTail(Context(), old(Snapshot()), ty, name, old(index)), err, Snapshot(), index)
    {
      var arr := TypeArray(ty);
      if arr.Failure? { return Some(arr.error); }
      var init := Initializer();
      if init.Failure? { return Some(init.error); }
      var semi := ExpectKeyword(";");
      if semi.Failure? { return Some(semi.error); }
      globals := globals[name := Global(name, arr.value.val, init.value.val)];
      return None;
    }

    /** parse(): top-level items until the tokens run out. */
    method Parse() returns (err: Option<ParseError>)
      requires index <= |toks|
      modifies this`index, this`aliases, this`structs, this`globals, this`functions
      ensures Reflects(ParseFrom(toks, old(Snapshot()), old(index)), err, Snapshot(), index)
    {
      while index < |toks|
        invariant index <= |toks|
        invariant ParseFrom(toks, old(Snapshot()), old(index)) == ParseFrom(toks, Snapshot(), index)
        decreases |toks| - index
      {
        err := Toplevel();
        if err.Some? { return; }
      }
      return None;
    }
  }

  /** A method's outcome agrees with the grammar: on success the new state and
      cursor are the ones described, on failure the error is the same. */
  predicate Reflects(spec: PResult<State>, err: Option<ParseError>, st: State, pos: nat)
  {
    match spec
    case Success(a) => err.None? && st == a.val && pos == a.pos
    case Failure(e) => err == Some(e)
  }
}
