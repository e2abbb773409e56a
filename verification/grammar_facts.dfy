/**
 * What the grammar of parse.c guarantees about the trees it builds: how type
 * suffixes wrap a base type, operator associativity, the operand swap of `>`
 * and `>=`, postfix desugaring, the declaration/expression decision, and the
 * copy of the globals a function definition takes.
 */
module GrammarFacts {
  import opened Syntax
  import opened Grammar

  // ---------------------------------------------------------------- type suffixes

  /** The number of consecutive `*` tokens from pos. */
  function StarRun(c: Ctx, pos: nat): (k: nat)
    requires pos <= |c.toks|
    ensures pos + k <= |c.toks|
    ensures forall i | pos <= i < pos + k :: AtKeyword(c, i, "*")
    ensures !AtKeyword(c, pos + k, "*")
    decreases |c.toks| - pos
  {
    if AtKeyword(c, pos, "*") then 1 + StarRun(c, pos + 1) else 0
  }

  /** k pointer layers around t. */
  function PtrN(t: Type, k: nat): Type
  {
    if k == 0 then t else PtrTo(PtrN(t, k - 1))
  }

  lemma {:induction false} PtrNInside(t: Type, k: nat)
    ensures PtrN(PtrTo(t), k) == PtrN(t, k + 1)
  {
    if k > 0 {
      PtrNInside(t, k - 1);
    }
  }

  /** type_pointer adds exactly one pointer layer per `*` and stops at the
      first token that is not `*`. */
  lemma {:induction false} TypePointerLayers(c: Ctx, t: Type, pos: nat)
    requires pos <= |c.toks|
    ensures TypePointer(c, t, pos) == At(PtrN(t, StarRun(c, pos)), pos + StarRun(c, pos))
    decreases |c.toks| - pos
  {
    if AtKeyword(c, pos, "*") {
      TypePointerLayers(c, PtrTo(t), pos + 1);
      PtrNInside(t, StarRun(c, pos + 1));
    }
  }

  /** The tokens from pos are `[ N ]` once per length in lens, then something
      other than `[`. */
  predicate Dims(c: Ctx, pos: nat, lens: seq<int>)
  {
    pos + 3 * |lens| <= |c.toks| &&
    (forall i | 0 <= i < |lens| ::
       c.toks[pos + 3 * i] == Keyword("[") && c.toks[pos + 3 * i + 1] == Number(lens[i]) &&
       c.toks[pos + 3 * i + 2] == Keyword("]")) &&
    !AtKeyword(c, pos + 3 * |lens|, "[")
  }

  /** Array layers in source order: the first length wraps the base type. */
  function ArraysOf(t: Type, lens: seq<int>): Type
    decreases |lens|
  {
    if lens == [] then t else ArraysOf(ArrayOf(t, lens[0]), lens[1..])
  }

  /** The first `[ N ]` of a run of dimensions, and the run after it. */
  lemma DimsStep(c: Ctx, pos: nat, lens: seq<int>)
    requires Dims(c, pos, lens) && lens != []
    ensures pos + 2 < |c.toks| && c.toks[pos] == Keyword("[") &&
            c.toks[pos + 1] == Number(lens[0]) && c.toks[pos + 2] == Keyword("]")
    ensures Dims(c, pos + 3, lens[1..])
  {
    assert c.toks[pos + 3 * 0] == Keyword("[");
    forall i | 0 <= i < |lens[1..]|
      ensures c.toks[pos + 3 + 3 * i] == Keyword("[") &&
              c.toks[pos + 3 + 3 * i + 1] == Number(lens[1..][i]) &&
              c.toks[pos + 3 + 3 * i + 2] == Keyword("]")
    {
      assert pos + 3 + 3 * i == pos + 3 * (i + 1);
    }
  }

  /** One `[ N ]` wraps the type once and moves past the three tokens. */
  lemma TypeArrayStep(c: Ctx, t: Type, pos: nat, n: int)
    requires pos + 2 < |c.toks| && c.toks[pos] == Keyword("[") &&
             c.toks[pos + 1] == Number(n) && c.toks[pos + 2] == Keyword("]")
    ensures TypeArray(c, t, pos) == TypeArray(c, ArrayOf(t, n), pos + 3)
  {
  }

  /** type_array adds one array layer per `[N]`, in source order. */
  lemma {:induction false} TypeArrayLayers(c: Ctx, t: Type, pos: nat, lens: seq<int>)
    requires pos <= |c.toks| && Dims(c, pos, lens)
    ensures TypeArray(c, t, pos) == Success(At(ArraysOf(t, lens), pos + 3 * |lens|))
    decreases |lens|
  {
    if lens != [] {
      DimsStep(c, pos, lens);
      TypeArrayStep(c, t, pos, lens[0]);
      TypeArrayLayers(c, ArrayOf(t, lens[0]), pos + 3, lens[1..]);
    }
  }

  // ---------------------------------------------------------------- operators

  /** The node one operator of a level builds from the tree so far and its
      right operand. */
  function Apply(e: OpEntry, lhs: Node, rhs: Node): Node
  {
    if e.swapped then Binop(e.op, rhs, lhs) else Binop(e.op, lhs, rhs)
  }

  /** Every binary level is left-associative: `a op1 b op2 d` groups as
      `(a op1 b) op2 d`. */
  lemma LevelLeftAssoc(c: Ctx, lvl: nat, pos: nat, a: Node, b: Node, d: Node,
                       p1: nat, p2: nat, p3: nat, e1: OpEntry, e2: OpEntry)
    requires pos <= |c.toks| && lvl < |Levels|
    requires Operand(c, pos, lvl) == Success(At(a, p1))
    requires MatchOp(c, p1, Levels[lvl]) == Some(e1)
    requires p1 < |c.toks| && Operand(c, p1 + 1, lvl) == Success(At(b, p2))
    requires MatchOp(c, p2, Levels[lvl]) == Some(e2)
    requires p2 < |c.toks| && Operand(c, p2 + 1, lvl) == Success(At(d, p3))
    requires MatchOp(c, p3, Levels[lvl]) == None
    ensures Level(c, pos, lvl) == Success(At(Apply(e2, Apply(e1, a, b), d), p3))
  {
    LevelTailStep(c, lvl, a, p1, e1, b, p2);
    LevelTailStep(c, lvl, Apply(e1, a, b), p2, e2, d, p3);
  }

  /** A level with exactly one operator builds one node. */
  lemma LevelOnce(c: Ctx, lvl: nat, pos: nat, a: Node, e: OpEntry, b: Node, p1: nat, p2: nat)
    requires pos <= |c.toks| && lvl < |Levels|
    requires Operand(c, pos, lvl) == Success(At(a, p1))
    requires p1 < |c.toks| && MatchOp(c, p1, Levels[lvl]) == Some(e)
    requires Operand(c, p1 + 1, lvl) == Success(At(b, p2))
    requires MatchOp(c, p2, Levels[lvl]) == None
    ensures Level(c, pos, lvl) == Success(At(Apply(e, a, b), p2))
  {
    LevelTailStep(c, lvl, a, p1, e, b, p2);
  }

  /** One operator and its operand extend the tree so far. */
  lemma LevelTailStep(c: Ctx, lvl: nat, acc: Node, p: nat, e: OpEntry, b: Node, p': nat)
    requires p < |c.toks| && lvl < |Levels|
    requires MatchOp(c, p, Levels[lvl]) == Some(e)
    requires Operand(c, p + 1, lvl) == Success(At(b, p'))
    ensures LevelTail(c, lvl, acc, p) == LevelTail(c, lvl, Apply(e, acc, b), p')
  {
  }

  /** The additive level, add(). */
  const AddLevel: nat := 8

  /** `a - b - d` is `SUB(SUB(a, b), d)`. */
  lemma SubtractionLeftAssoc(c: Ctx, pos: nat, a: Node, b: Node, d: Node, p1: nat, p2: nat, p3: nat)
    requires pos <= |c.toks|
    requires Operand(c, pos, AddLevel) == Success(At(a, p1)) && AtKeyword(c, p1, "-")
    requires Operand(c, p1 + 1, AddLevel) == Success(At(b, p2)) && AtKeyword(c, p2, "-")
    requires Operand(c, p2 + 1, AddLevel) == Success(At(d, p3))
    requires MatchOp(c, p3, Levels[AddLevel]) == None
    ensures Level(c, pos, AddLevel) == Success(At(Binop(Sub, Binop(Sub, a, b), d), p3))
  {
    assert MatchOp(c, p1, Levels[AddLevel]) == Some(OpEntry("-", Sub, false));
    assert MatchOp(c, p2, Levels[AddLevel]) == Some(OpEntry("-", Sub, false));
    LevelLeftAssoc(c, AddLevel, pos, a, b, d, p1, p2, p3,
                   OpEntry("-", Sub, false), OpEntry("-", Sub, false));
  }

  /** The comma sequence is left-associative too. */
  lemma CommaLeftAssoc(c: Ctx, pos: nat, a: Node, b: Node, d: Node, p1: nat, p2: nat, p3: nat)
    requires pos <= |c.toks|
    requires Assignment(c, pos) == Success(At(a, p1)) && AtKeyword(c, p1, ",")
    requires Assignment(c, p1 + 1) == Success(At(b, p2)) && AtKeyword(c, p2, ",")
    requires Assignment(c, p2 + 1) == Success(At(d, p3)) && !AtKeyword(c, p3, ",")
    ensures Expr(c, pos) == Success(At(Binop(Comma, Binop(Comma, a, b), d), p3))
  {
    assert SeqTail(c, Binop(Comma, a, b), p2) == Success(At(Binop(Comma, Binop(Comma, a, b), d), p3));
  }

  /** The relational level, relational(). */
  const RelLevel: nat := 6

  /** The tree one relational operator builds: `>` and `>=` become `<` and
      `<=` with the operands swapped; `<` and `<=` keep the source order. */
  function Relation(kw: string, a: Node, b: Node): Node
    requires kw in ["<", "<=", ">", ">="]
  {
    if kw == "<" then Binop(Lt, a, b)
    else if kw == "<=" then Binop(Lte, a, b)
    else if kw == ">" then Binop(Lt, b, a)
    else Binop(Lte, b, a)
  }

  /** The entry of the relational table a keyword selects. */
  function RelEntry(kw: string): OpEntry
    requires kw in ["<", "<=", ">", ">="]
  {
    if kw == "<" then OpEntry("<", Lt, false)
    else if kw == "<=" then OpEntry("<=", Lte, false)
    else if kw == ">" then OpEntry(">", Lt, true)
    else OpEntry(">=", Lte, true)
  }

  /** Each relational keyword selects its own entry: `<` is tried before
      `<=` but the two are distinct tokens. */
  lemma RelationalMatch(c: Ctx, p: nat, kw: string)
    requires kw in ["<", "<=", ">", ">="] && AtKeyword(c, p, kw)
    ensures MatchOp(c, p, Levels[RelLevel]) == Some(RelEntry(kw))
  {
    var ops := Levels[RelLevel];
    if kw != "<" {
      assert MatchOp(c, p, ops) == MatchOp(c, p, ops[1..]);
      if kw != "<=" {
        assert MatchOp(c, p, ops[1..]) == MatchOp(c, p, ops[2..]);
        if kw != ">" {
          assert MatchOp(c, p, ops[2..]) == MatchOp(c, p, ops[3..]);
        }
      }
    }
  }

  lemma RelationalOperands(c: Ctx, pos: nat, kw: string, a: Node, b: Node, p1: nat, p2: nat)
    requires pos <= |c.toks| && kw in ["<", "<=", ">", ">="]
    requires Operand(c, pos, RelLevel) == Success(At(a, p1)) && AtKeyword(c, p1, kw)
    requires Operand(c, p1 + 1, RelLevel) == Success(At(b, p2))
    requires MatchOp(c, p2, Levels[RelLevel]) == None
    ensures Level(c, pos, RelLevel) == Success(At(Relation(kw, a, b), p2))
  {
    RelationalMatch(c, p1, kw);
    LevelOnce(c, RelLevel, pos, a, RelEntry(kw), b, p1, p2);
    RelationOfEntry(kw, a, b);
  }

  /** The table entry builds the tree Relation describes. */
  lemma RelationOfEntry(kw: string, a: Node, b: Node)
    requires kw in ["<", "<=", ">", ">="]
    ensures Apply(RelEntry(kw), a, b) == Relation(kw, a, b)
  {
    if kw == "<" {
      assert Relation(kw, a, b) == Binop(Lt, a, b);
    } else if kw == "<=" {
      assert Relation(kw, a, b) == Binop(Lte, a, b);
    } else if kw == ">" {
      assert Relation(kw, a, b) == Binop(Lt, b, a);
    } else {
      assert Relation(kw, a, b) == Binop(Lte, b, a);
    }
  }

  /** Assignment is right-associative, and its right side is a whole expr():
      `a = b = d` is `ASGN(a, ASGN(b, d))`. */
  lemma AssignmentRightAssoc(c: Ctx, pos: nat, a: Node, b: Node, d: Node, p1: nat, p2: nat, p3: nat)
    requires pos <= |c.toks|
    requires Conditional(c, pos) == Success(At(a, p1)) && AtKeyword(c, p1, "=")
    requires Conditional(c, p1 + 1) == Success(At(b, p2)) && AtKeyword(c, p2, "=")
    requires Expr(c, p2 + 1) == Success(At(d, p3)) && !AtKeyword(c, p3, ",")
    ensures Expr(c, pos) == Success(At(Binop(Assign, a, Binop(Assign, b, d)), p3))
  {
    assert Assignment(c, p1 + 1) == Success(At(Binop(Assign, b, d), p3));
    assert Expr(c, p1 + 1) == Success(At(Binop(Assign, b, d), p3));
    assert Assignment(c, pos) == Success(At(Binop(Assign, a, Binop(Assign, b, d)), p3));
  }

  // ---------------------------------------------------------------- postfix

  /** `e[i]` is `DEREF(ADD(e, i))`. */
  lemma IndexSuffix(c: Ctx, acc: Node, pos: nat, i: Node, p1: nat)
    requires pos < |c.toks| && AtKeyword(c, pos, "[")
    requires Expr(c, pos + 1) == Success(At(i, p1)) && AtKeyword(c, p1, "]")
    ensures PostfixTail(c, acc, pos) == PostfixTail(c, Unop(Deref, Binop(Add, acc, i)), p1 + 1)
  {
    assert PostfixOp(c, acc, pos) == Success(At(Some(Unop(Deref, Binop(Add, acc, i))), p1 + 1));
  }

  /** Suffixes apply left to right: `e[i]->f` is `ATTR(DEREF(DEREF(ADD(e, i))), f)`. */
  lemma IndexThenArrow(c: Ctx, acc: Node, pos: nat, i: Node, p1: nat, f: string)
    requires pos < |c.toks| && AtKeyword(c, pos, "[")
    requires Expr(c, pos + 1) == Success(At(i, p1)) && AtKeyword(c, p1, "]")
    requires AtKeyword(c, p1 + 1, "->") && p1 + 2 < |c.toks| && c.toks[p1 + 2] == Ident(f)
    ensures PostfixTail(c, acc, pos) ==
            PostfixTail(c, Attr(Unop(Deref, Unop(Deref, Binop(Add, acc, i))), f), p1 + 3)
  {
    IndexSuffix(c, acc, pos, i, p1);
  }

  /** `e.f` is `ATTR(e, f)`. */
  lemma DotSuffix(c: Ctx, acc: Node, pos: nat, f: string)
    requires AtKeyword(c, pos, ".") && pos + 1 < |c.toks| && c.toks[pos + 1] == Ident(f)
    ensures PostfixTail(c, acc, pos) == PostfixTail(c, Attr(acc, f), pos + 2)
  {
  }

  // ---------------------------------------------------------------- statements

  /** A statement that starts with an identifier is a declaration exactly when
      the identifier is bound in the alias scope chain; otherwise it is an
      expression statement. */
  lemma {:induction false} DeclarationByAlias(c: Ctx, pos: nat)
    requires pos < |c.toks| && c.toks[pos].Ident?
    ensures var r := Stmt(c, pos);
            r.Success? ==> (r.value.val.VarDecl? <==> Find(c.aliases, c.toks[pos].name).Some?)
  {
    if !StartsDecl(c, pos) {
      var e := Expr(c, pos);
      assert Yields(e);
    }
  }

  // ---------------------------------------------------------------- struct scopes

  /** struct_pre on `struct T { ... }`: the new struct is bound to T in the
      innermost struct scope, every other tag resolves as before, and the
      outer scopes are untouched. */
  lemma StructPreRegisters(c: Ctx, pos: nat)
    requires pos + 1 < |c.toks| && c.toks[pos].Ident? && c.toks[pos + 1] == Keyword("{")
    ensures var r := StructPre(c, pos);
            var fs := FieldsTail(c, [], pos + 2);
            var tag := c.toks[pos].name;
            (r.Success? <==> fs.Success?) &&
            (r.Success? ==>
              Find(r.value.val.structs, tag) == Some(StructType(Some(tag), fs.value.val)) &&
              (forall n :: n != tag ==> Find(r.value.val.structs, n) == Find(c.structs, n)) &&
              (|c.structs| > 0 ==>
                 |r.value.val.structs| == |c.structs| &&
                 r.value.val.structs[..|c.structs| - 1] == c.structs[..|c.structs| - 1]))
  {
    var tag := c.toks[pos].name;
    assert AtIdent(c, pos);
    assert AtKeyword(c, pos + 1, "{");
    var fs := FieldsTail(c, [], pos + 2);
    if fs.Success? {
      var ty := StructType(Some(tag), fs.value.val);
      assert StructBase(c, Some(tag), pos + 1) == Success(At(Some(ty), fs.value.pos));
    }
  }

  // ---------------------------------------------------------------- top level

  /** A top-level item never changes the functions parsed before it, and a
      function definition captures the globals declared so far. */
  lemma ToplevelKeepsFunctions(toks: seq<Token>, st: State, pos: nat)
    requires pos <= |toks|
    ensures var r := Toplevel(toks, st, pos);
            r.Success? ==>
              |st.functions| <= |r.value.val.functions| <= |st.functions| + 1 &&
              r.value.val.functions[..|st.functions|] == st.functions &&
              (|r.value.val.functions| > |st.functions| ==>
                 r.value.val.functions[|st.functions|].globals == st.globals)
  {
  }

  /** Over a whole parse the function list only grows, and every function
      keeps the globals it captured. */
  lemma {:induction false} ParseKeepsFunctions(toks: seq<Token>, st: State, pos: nat)
    requires pos <= |toks|
    ensures var r := ParseFrom(toks, st, pos);
            r.Success? ==>
              |st.functions| <= |r.value.val.functions| &&
              r.value.val.functions[..|st.functions|] == st.functions
    decreases |toks| - pos
  {
    if pos < |toks| {
      var next := Toplevel(toks, st, pos);
      if next.Success? {
        ToplevelKeepsFunctions(toks, st, pos);
        ParseKeepsFunctions(toks, next.value.val, next.value.pos);
        var fs := next.value.val.functions;
        assert fs[..|st.functions|] == st.functions;
      }
    }
  }
}
