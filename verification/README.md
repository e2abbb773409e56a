# ccatd core in Dafny

A model of the three passes at the heart of the ccatd C compiler:

- **Parsing** (`parse.c`). A recursive-descent parser turns the lexer's tokens into functions, globals and statement and expression trees. While it parses, it keeps two live scope chains: typedef aliases and struct tags. A statement that starts with an identifier is a declaration exactly when that identifier is a known alias.
- **Semantic analysis** (`semantic.c`). This pass resolves local variables on a stack of visible declarations. It rejects a duplicate declaration in the current scope and a duplicate parameter. It looks up callees by name and checks their argument count, and it computes the type of every expression from the typing table of `+`, `-`, `*`, `/`, comparisons, `&` and `*`.
- **Code generation** (`codegen.c`). This pass lowers the tree to stack-machine assembly for x86-64. Each expression pushes its value. Statements pop what they pushed. Control flow uses `.Lend_if`/`.Lelse`/`.Lwhile`/`.Lend_while`/`.Lfor`/`.Lend_for` labels numbered from one global counter. Calls pass up to six arguments in `rdi, rsi, rdx, rcx, r8, r9`.

Each pass is written twice:

- **Pure specification functions.** These live in `Grammar`, `Semantic` and `Codegen`, and say what each routine returns, where it leaves the cursor, and what error it reports.
- **An imperative class.** `Parser.Parser`, `Analyzer.Analyzer` and `Generator.Generator` hold the source's mutable state as fields:
  - the token index, the scope chains, the global table and the function list;
  - `local_vars` and `func_env`;
  - the emitted code and `label_num`.

  Every method of these classes is proved to produce exactly what the function of the same role describes.

Properties of the functions are proved as lemmas:

- `GrammarFacts`: pointer and array suffixes, associativity of each operator level, how `>` and `>=` are parsed, how postfix operators desugar, and the declaration-or-expression decision.
- `Semantic`: scoping and shadowing, the typing table, and duplicate detection.
- `CodegenFacts`: stack balance of every generated statement.
- `Execution`: a small machine on which the arithmetic code computes C's value, and on which a call places each argument in the right register.

`Findings` records four places where the code does not do what it evidently means. For each it shows a counterexample against the as-written model, and gives a repaired definition with the intended property proved.

Errors are values rather than aborts:

- `Grammar.ParseError`
- `Semantic.SemaError`
- `Codegen.GenError`

The compiler stops at the first error, and so does the model: the first error ends the computation.

## Model

| member | source | states |
|---|---|---|
| Syntax.Find | parse.c:642-648 | env_find: a binding is found iff some scope binds the name, and it comes from the innermost scope that does |
| Syntax.Bind | parse.c:86-99 | env_push: after binding, the name resolves to the new type and every other name resolves as before; a non-empty chain keeps its length and its outer scopes, and only the innermost scope gains the binding; an empty chain gets one scope |
| Grammar.Expect | parse.c:622-628 | expect_keyword succeeds iff the next token is that keyword, and then advances by exactly one |
| Grammar.ExpectIdent | parse.c:614-620 | expect(TK_IDT) succeeds iff the next token is an identifier, returns its name and advances by one |
| Grammar.TypePointer | parse.c:318-321 | type_pointer never moves the cursor back or past the end |
| Grammar.TypePointerReadsTokens | parse.c:318-321 | type_pointer depends on the tokens only, not on the alias or struct scopes |
| Grammar.TypeArray | parse.c:323-330 | type_array stays within the tokens and never moves the cursor back |
| Grammar.TypePre | parse.c:650-664 | consume_type_pre stays within the tokens; when it finds a type it has consumed at least one token |
| Grammar.TypeName | parse.c:212-217 | type() consumes at least one token when it succeeds; a missing type is the "unknown type" error |
| Grammar.VarDeclare | parse.c:201-210 | var_decl consumes a type, a name and its array suffixes: at least one token |
| Grammar.Params | parse.c:219-230 | params() consumes at least one token, and the last one it consumes is `)` |
| Grammar.ParamsTail | parse.c:225-228 | the loop of params() consumes at least one token, the last being `)` |
| Grammar.NextParam | parse.c:226-227 | `,` and a declaration, at least one token |
| Grammar.Expr | parse.c:357-362 | expr() stays within the tokens and yields an expression node |
| Grammar.SeqTail | parse.c:359-361 | the comma loop keeps building expression nodes |
| Grammar.Assignment | parse.c:364-370 | assignment() yields an expression node and stays within the tokens |
| Grammar.Conditional | parse.c:372-383 | conditional() yields an expression node and stays within the tokens |
| Grammar.CondArms | parse.c:375-381 | the arms after `?` consume at least one token and yield an expression node |
| Grammar.MatchOp | parse.c:420-484 | the operator consumed by a level is one of that level's operators and is the next token; None iff none of them is next |
| Grammar.Level | parse.c:385-484 | each binary level from logical_or() to mul() yields an expression node and stays within the tokens |
| Grammar.Operand | parse.c:385-484 | the operand of a level is the next tighter level, or unary() below mul() |
| Grammar.LevelTail | parse.c:385-484 | the `(operator operand)*` loop of a level keeps an expression node |
| Grammar.UnaryExpr | parse.c:486-495 | unary() yields an expression node and stays within the tokens |
| Grammar.Term | parse.c:497-556 | term() yields an expression node and stays within the tokens |
| Grammar.Primary | parse.c:500-529 | the part of term() before the postfix loop yields an expression node |
| Grammar.Atom | parse.c:505-529 | an identifier, call, number, string or character literal, or the parenthesised expression alone |
| Grammar.PostfixTail | parse.c:531-553 | the postfix loop keeps an expression node and stays within the tokens |
| Grammar.PostfixOp | parse.c:532-550 | no postfix operator leaves the cursor in place; one consumes tokens and builds a node |
| Grammar.Subscript | parse.c:532-539 | `[ expr ]` consumes at least one token and yields an expression |
| Grammar.List | parse.c:558-568 | args() (and array(), parse.c:342-355) consume at least one token, the last being the closing token |
| Grammar.ListTail | parse.c:562-566 | the loop of args() consumes at least one token, the last being the closing token |
| Grammar.NextItem | parse.c:564-565 | `,` and an assign() consume at least one token |
| Grammar.RhsExpr | parse.c:334-340 | rhs_expr() stays within the tokens |
| Grammar.Initializer | parse.c:308 | `= rhs_expr()` or no initializer, within the tokens |
| Grammar.Stmt | parse.c:244-316 | every statement consumes at least one token |
| Grammar.DeclStmt | parse.c:306-310 | a declaration statement consumes at least one token |
| Grammar.ExprStmt | parse.c:311-313 | an expression statement consumes at least one token |
| Grammar.ReturnStmt | parse.c:247-253 | `return [expr];` consumes at least one token |
| Grammar.IfStmt | parse.c:254-260 | `if` consumes at least one token |
| Grammar.Condition | parse.c:256-258 | a parenthesised condition consumes tokens and yields an expression |
| Grammar.IfBranches | parse.c:259-260 | the branches of an `if` consume at least one token |
| Grammar.ElsePart | parse.c:260 | the optional `else` stays within the tokens |
| Grammar.ElseStmt | parse.c:260 | the `else` branch consumes at least one token |
| Grammar.WhileStmt | parse.c:261-266 | `while` consumes at least one token |
| Grammar.ForStmt | parse.c:267-287 | `for` consumes at least one token |
| Grammar.ForInit | parse.c:270-278 | the first clause of a `for` consumes at least one token, the last being `;` |
| Grammar.ForClause | parse.c:279-286 | the guard or the step of a `for` consumes at least one token, the last being its terminator |
| Grammar.DoStmt | parse.c:288-295 | `do ... while (...);` consumes at least one token |
| Grammar.DoTail | parse.c:291-295 | the tail of a do-while consumes at least one token |
| Grammar.BlockStmts | parse.c:232-242 | block() consumes at least one token, the last being `}` |
| Grammar.StmtsTail | parse.c:237-238 | the statement loop of block() consumes at least one token, the last being `}` |
| Grammar.StructPre | parse.c:150-183 | struct_pre stays within the tokens |
| Grammar.StructBase | parse.c:151-176 | a struct body or a tag lookup, within the tokens |
| Grammar.Register | parse.c:178-179 | a struct with a tag is bound to that tag in the innermost scope; every other tag resolves as before and the outer scopes are untouched; an anonymous struct changes nothing |
| GrammarFacts.StructPreRegisters | parse.c:150-183 | after `struct T { ... }`, T resolves to the new struct with exactly the parsed fields, every other tag resolves as before, and the outer struct scopes are unchanged |
| Grammar.FieldsTail | parse.c:155-158 | the fields of a struct body consume at least one token, the last being `}` |
| Grammar.Field | parse.c:156-157 | one field and its `;` consume at least one token |
| Grammar.ParseStruct | parse.c:185-199 | parse_struct stays within the tokens |
| Grammar.TypedefType | parse.c:87-89 | the type after `typedef` stays within the tokens |
| Grammar.FuncDef | parse.c:132-148 | func() consumes the parameters and the body: at least one token, the last being the body's `}` |
| Grammar.Toplevel | parse.c:84-130 | every top-level item consumes at least one token and stays within the tokens |
| Grammar.TypedefDecl | parse.c:86-99 | a typedef consumes tokens and changes neither the functions nor the globals |
| Grammar.AliasBind | parse.c:94-97 | after the type of a typedef, exactly the name and `;` are consumed, and only the alias scopes change |
| Grammar.AliasName | parse.c:94-95 | the new name is an identifier followed by `;` |
| Grammar.StructItem | parse.c:100-110 | a struct item consumes tokens and never changes the function list |
| Grammar.TypedDecl | parse.c:112-129 | an item that starts with a type consumes at least one token |
| Grammar.TypedHead | parse.c:112-113 | the type and the name consume at least one token |
| Grammar.TypedRest | parse.c:114-129 | a function definition or a global consumes at least one token |
| Grammar.GlobalTail | parse.c:118-128 | a global's suffixes, initializer and `;` consume at least one token |
| Grammar.ParseFrom | parse.c:75-82 | a successful parse consumes every token |
| Grammar.Initial | parse.c:75-77 | no contract; the state parse() starts from: the builtin aliases under one fresh alias scope, one empty struct scope, no globals and no functions |
| Grammar.Parse | parse.c:75-82 | parse() from that state: a successful parse consumes every token |
| Grammar.StartsDecl | parse.c:635-640 | no contract; lookahead_var_decl: the next token is `struct`, or an identifier that some alias scope binds |
| GrammarFacts.StarRun | parse.c:318-321 | the run of `*` tokens from a position: all are `*`, and the token after them is not |
| GrammarFacts.TypePointerLayers | parse.c:318-321 | type_pointer adds exactly one pointer layer per `*` and stops after the run |
| GrammarFacts.TypeArrayStep | parse.c:323-330 | one `[N]` wraps the type in one array layer and consumes three tokens |
| GrammarFacts.TypeArrayLayers | parse.c:323-330 | `[N1][N2]...` wraps the type in array layers in source order and consumes 3 tokens per dimension |
| GrammarFacts.LevelLeftAssoc | parse.c:385-484 | every binary level groups `a op1 b op2 d` as `(a op1 b) op2 d` |
| GrammarFacts.LevelOnce | parse.c:385-484 | a level with one operator builds exactly one node |
| GrammarFacts.LevelTailStep | parse.c:385-484 | one operator and its operand extend the tree built so far |
| GrammarFacts.SubtractionLeftAssoc | parse.c:460-470 | `a - b - d` parses as `SUB(SUB(a, b), d)` |
| GrammarFacts.CommaLeftAssoc | parse.c:357-362 | `a, b, d` parses as `SEQ(SEQ(a, b), d)` |
| GrammarFacts.RelationalMatch | parse.c:432-446 | each relational keyword selects its own table entry |
| GrammarFacts.RelationalOperands | parse.c:432-446 | `a < b` and `a <= b` keep their operands; `a > b` becomes `b < a` and `a >= b` becomes `b <= a` |
| GrammarFacts.RelationOfEntry | parse.c:432-446 | the table entry builds the tree the relational rule describes |
| GrammarFacts.AssignmentRightAssoc | parse.c:364-370 | `a = b = d` parses as `ASGN(a, ASGN(b, d))` |
| GrammarFacts.IndexSuffix | parse.c:532-539 | `e[i]` is `DEREF(ADD(e, i))` |
| GrammarFacts.IndexThenArrow | parse.c:531-550 | postfix operators apply left to right: `e[i]->f` is `ATTR(DEREF(DEREF(ADD(e, i))), f)` |
| GrammarFacts.DotSuffix | parse.c:540-544 | `e.f` is `ATTR(e, f)` |
| GrammarFacts.DeclarationByAlias | parse.c:306-313 | a statement starting with an identifier is a declaration iff that identifier is bound as an alias |
| GrammarFacts.ToplevelKeepsFunctions | parse.c:112-129 | a top-level item adds at most one function, keeps the earlier ones, and a new function captures the current globals |
| GrammarFacts.ParseKeepsFunctions | parse.c:75-82 | over a whole parse the function list only grows, and earlier functions are unchanged |
| Parser.Parser.constructor | parse.c:75-78 | the cursor starts at 0, with the builtin aliases under a fresh alias scope, one empty struct scope, no globals and no functions |
| Parser.Parser.LookaheadAny | parse.c:572-576 | the next token, or None exactly at the end |
| Parser.Parser.LookaheadKeyword | parse.c:583-586 | true iff the next token is that keyword |
| Parser.Parser.ConsumeKeyword | parse.c:596-602 | advances by one exactly when the next token is that keyword |
| Parser.Parser.Consume | parse.c:588-594 | advances by one exactly when the next token has that kind |
| Parser.Parser.ExpectKeyword | parse.c:622-628 | agrees with Grammar.Expect: result and cursor |
| Parser.Parser.ExpectIdentifier | parse.c:614-620 | agrees with Grammar.ExpectIdent |
| Parser.Parser.LookaheadVarDecl | parse.c:635-640 | true iff the next token is `struct` or an identifier bound as an alias |
| Parser.Parser.TypePointer | parse.c:318-321 | agrees with Grammar.TypePointer: the result type and the new cursor |
| Parser.Parser.TypeArray | parse.c:323-330 | agrees with Grammar.TypeArray |
| Parser.Parser.ConsumeTypeIdentifier | parse.c:642-648 | the alias bound to the next identifier (None when it is unbound), advancing only when there is one; a token that is not an identifier is an error, where the source dereferences NULL (see Left out) |
| Parser.Parser.ConsumeTypePre | parse.c:650-664 | agrees with Grammar.TypePre |
| Parser.Parser.TypeName | parse.c:212-217 | agrees with Grammar.TypeName |
| Parser.Parser.VarDeclare | parse.c:201-210 | agrees with Grammar.VarDeclare |
| Parser.Parser.Params | parse.c:219-230 | agrees with Grammar.Params |
| Parser.Parser.NextParam | parse.c:226-227 | agrees with Grammar.NextParam |
| Parser.Parser.Expr | parse.c:357-362 | agrees with Grammar.Expr |
| Parser.Parser.Assignment | parse.c:364-370 | agrees with Grammar.Assignment |
| Parser.Parser.Conditional | parse.c:372-383 | agrees with Grammar.Conditional |
| Parser.Parser.CondArms | parse.c:375-381 | agrees with Grammar.CondArms |
| Parser.Parser.ConsumeOperator | parse.c:420-484 | consumes the operator Grammar.MatchOp selects, and nothing when it selects none |
| Parser.Parser.Level | parse.c:385-484 | agrees with Grammar.Level |
| Parser.Parser.Operand | parse.c:385-484 | agrees with Grammar.Operand |
| Parser.Parser.UnaryExpr | parse.c:486-495 | agrees with Grammar.UnaryExpr |
| Parser.Parser.Term | parse.c:497-556 | agrees with Grammar.Term |
| Parser.Parser.Postfix | parse.c:531-553 | agrees with Grammar.PostfixTail |
| Parser.Parser.PostfixOp | parse.c:532-550 | agrees with Grammar.PostfixOp |
| Parser.Parser.Subscript | parse.c:532-539 | agrees with Grammar.Subscript |
| Parser.Parser.PrimaryPart | parse.c:500-529 | agrees with Grammar.Primary |
| Parser.Parser.Atom | parse.c:505-529 | agrees with Grammar.Atom |
| Parser.Parser.ListUntil | parse.c:558-568 | agrees with Grammar.List |
| Parser.Parser.NextItem | parse.c:564-565 | agrees with Grammar.NextItem |
| Parser.Parser.RhsExpr | parse.c:334-340 | agrees with Grammar.RhsExpr |
| Parser.Parser.Initializer | parse.c:308 | agrees with Grammar.Initializer |
| Parser.Parser.Stmt | parse.c:244-316 | agrees with Grammar.Stmt; the struct scopes are as they were on entry |
| Parser.Parser.SimpleStmt | parse.c:296-314 | agrees with Grammar.Stmt on statements without a compound keyword |
| Parser.Parser.ReturnStmt | parse.c:247-253 | agrees with Grammar.ReturnStmt |
| Parser.Parser.Condition | parse.c:256-258 | agrees with Grammar.Condition |
| Parser.Parser.IfStmt | parse.c:254-260 | agrees with Grammar.IfStmt |
| Parser.Parser.IfBranches | parse.c:259-260 | agrees with Grammar.IfBranches |
| Parser.Parser.ElsePart | parse.c:260 | agrees with Grammar.ElsePart |
| Parser.Parser.ElseStmt | parse.c:260 | agrees with Grammar.ElseStmt |
| Parser.Parser.WhileStmt | parse.c:261-266 | agrees with Grammar.WhileStmt |
| Parser.Parser.ForStmt | parse.c:267-287 | agrees with Grammar.ForStmt |
| Parser.Parser.ForInit | parse.c:270-278 | agrees with Grammar.ForInit |
| Parser.Parser.ForClause | parse.c:279-286 | agrees with Grammar.ForClause |
| Parser.Parser.DoWhileStmt | parse.c:288-295 | agrees with Grammar.DoStmt |
| Parser.Parser.DoTail | parse.c:291-295 | agrees with Grammar.DoTail |
| Parser.Parser.JumpStmt | parse.c:296-301 | `break;` and `continue;` as Grammar.Stmt parses them |
| Parser.Parser.DeclStmt | parse.c:306-310 | agrees with Grammar.DeclStmt |
| Parser.Parser.ExprStmt | parse.c:311-313 | agrees with Grammar.ExprStmt |
| Parser.Parser.BlockStmts | parse.c:232-242 | agrees with Grammar.BlockStmts; the struct scopes are as they were on entry |
| Parser.Parser.Fields | parse.c:155-158 | agrees with Grammar.FieldsTail |
| Parser.Parser.Field | parse.c:156-157 | agrees with Grammar.Field |
| Parser.Parser.StructPre | parse.c:150-183 | agrees with Grammar.StructPre, including the struct scopes it leaves |
| Parser.Parser.StructBase | parse.c:151-176 | agrees with Grammar.StructBase |
| Parser.Parser.ParseStruct | parse.c:185-199 | agrees with Grammar.ParseStruct |
| Parser.Parser.FuncDef | parse.c:132-148 | agrees with Grammar.FuncDef (parameters, body and a copy of the current globals); the struct scopes are as they were on entry |
| Parser.Parser.Toplevel | parse.c:84-130 | the new parser state and cursor are those of Grammar.Toplevel, or its error |
| Parser.Parser.TypedefItem | parse.c:86-99 | agrees with Grammar.TypedefDecl |
| Parser.Parser.AliasItem | parse.c:94-97 | agrees with Grammar.AliasBind |
| Parser.Parser.AliasName | parse.c:94-95 | agrees with Grammar.AliasName |
| Parser.Parser.TypedefType | parse.c:87-89 | agrees with Grammar.TypedefType |
| Parser.Parser.StructItem | parse.c:100-110 | agrees with Grammar.StructItem |
| Parser.Parser.TypedItem | parse.c:112-129 | agrees with Grammar.TypedDecl |
| Parser.Parser.TypedHead | parse.c:112-113 | agrees with Grammar.TypedHead |
| Parser.Parser.TypedRest | parse.c:114-129 | agrees with Grammar.TypedRest |
| Parser.Parser.GlobalRest | parse.c:118-128 | agrees with Grammar.GlobalTail |
| Parser.Parser.Parse | parse.c:75-82 | the loop of parse(): the final state is Grammar.ParseFrom's, or its first error |
| Semantic.EqType | semantic.c:224-230 | no contract; eq_type: two pointers compare their targets, anything else compares type tags (its properties are Semantic.EqTypeShape and Semantic.EqTypeEquivalence) |
| Semantic.Base | semantic.c:224-230 | the type under all pointer layers is not a pointer |
| Semantic.EqTypeShape | semantic.c:224-230 | eq_type holds iff both types have as many pointer layers over bases with the same tag; array lengths and struct members are never compared |
| Semantic.EqTypeEquivalence | semantic.c:224-230 | eq_type is reflexive, symmetric and transitive |
| Semantic.LastIndex | semantic.c:237-247 | index_of_lvar: the index of the last local with the name, or the stack height when there is none |
| Semantic.FirstFunc | semantic.c:249-258 | find_func: the first registered function with the name; None iff there is none |
| Semantic.VarType | semantic.c:232-235 | a variable resolves iff some local has its name; otherwise "undefined variable" |
| Semantic.StmtCheck | semantic.c:57-99 | sema_stmt only ever pushes onto the local stack: the old stack is a prefix of the new one |
| Semantic.ExprType | semantic.c:101-222 | no contract; sema_expr: the type of an expression or the first error, case by case as in the source (its properties are the lemmas below) |
| Semantic.BinaryType | semantic.c:160-220 | no contract; the result type of each binary operator from its operand types, or the operator's error |
| Semantic.ArgsCheck | semantic.c:148-149 | the arguments of a call check iff every argument's expression checks |
| Semantic.Keeping | semantic.c:98 | an expression statement keeps the stack or reports the expression's error |
| Semantic.BlockCheck | semantic.c:47-55 | after a block that checks, the local stack is exactly as it was on entry |
| Semantic.StmtsCheck | semantic.c:50-51 | the statements of a block only push onto the stack |
| Semantic.HasDuplicate | semantic.c:24-35 | no contract; two distinct parameters carry the same name |
| Semantic.Clashes | semantic.c:28 | no contract; the memcmp comparison: the earlier name is a prefix of the later one |
| Semantic.PrefixDuplicateFrom | semantic.c:24-35 | the duplicate test as written: Some(n) iff some parameter's name n clashes with a later one's; None iff no name is a prefix of a later one |
| Semantic.PrefixTestRejectsDuplicates | semantic.c:24-35 | the test as written does reject every real duplicate |
| Semantic.PrefixTestExactWithoutPrefixes | semantic.c:24-35 | when no name is a proper prefix of a later one, the test as written rejects exactly the lists the intended test rejects |
| Semantic.FuncCheck | semantic.c:21-45 | no contract; sema_func with the test as written: a clash is a duplicate-parameter error, otherwise the function is registered and its body checked from exactly the parameters (its properties are Semantic.FuncRegistersItself) |
| Semantic.DuplicateFrom | semantic.c:24-35 | the intended test, with names compared for equality: Some(n) iff two parameters are named n; None iff all names are distinct |
| Semantic.DuplicateTestExact | semantic.c:24-35 | the corrected test rejects exactly the parameter lists with a repeated name |
| Semantic.ShadowingResolvesInnermost | semantic.c:108-114 | a local pushed last shadows every earlier local of the same name |
| Semantic.UndefinedWithoutDeclaration | semantic.c:108-111 | a name with no local fails as undefined, whatever the offset |
| Semantic.DuplicateIffInScope | semantic.c:58-68 | a declaration is refused iff a local of that name lies at or above the current scope's start; otherwise the initializer is checked and the declaration pushed |
| Semantic.ExprNeverDuplicate | semantic.c:101-222 | expressions never report a duplicate declaration |
| Semantic.ArgsNeverDuplicate | semantic.c:148-149 | call arguments never report a duplicate declaration |
| Semantic.AddSymmetric | semantic.c:160-171 | the typing of `+` is symmetric: `p + n` and `n + p` both have the pointer's type |
| Semantic.SubtractionTable | semantic.c:173-182 | `-` accepts exactly int-int and pointer-int, with the left operand's type |
| Semantic.DerefOfAddr | semantic.c:125-138 | `*&e` has the type of `e` |
| Semantic.ComparisonIsInt | semantic.c:201-220 | a comparison checks iff both operands do, and then has type int |
| Semantic.FirstFuncAt | semantic.c:249-258 | the first function with a name is the one find_func returns |
| Semantic.CallTyping | semantic.c:140-153 | an unknown callee is refused; a wrong argument count is refused; otherwise the call has the callee's return type once its arguments check |
| Semantic.FuncRegistersItself | semantic.c:21-45 | a function that checks is appended to the registered functions; a parameter list with a repeated name is refused |
| Analyzer.ErrorOf | semantic.c:98 | the error of a failed check, None on success |
| Analyzer.Analyzer.constructor | semantic.c:11-12 | func_env and local_vars start empty |
| Analyzer.Analyzer.IndexOfLvar | semantic.c:237-247 | the forward scan returns Semantic.LastIndex |
| Analyzer.Analyzer.FindLvar | semantic.c:232-235 | returns Semantic.VarType of the current stack |
| Analyzer.Analyzer.FindFunc | semantic.c:249-258 | returns Semantic.FirstFunc of func_env |
| Analyzer.Analyzer.SemaExpr | semantic.c:101-222 | sema_expr returns the type Semantic.ExprType computes, or its error |
| Analyzer.Analyzer.SemaBinop | semantic.c:116-123 | the binary cases agree with Semantic.ExprType |
| Analyzer.Analyzer.SemaUnop | semantic.c:125-138 | the unary cases agree with Semantic.ExprType |
| Analyzer.Analyzer.SemaCall | semantic.c:140-153 | the call case agrees with Semantic.ExprType |
| Analyzer.Analyzer.SemaDecl | semantic.c:58-68 | the new local stack, or the error, is the one Semantic.StmtCheck gives |
| Analyzer.Analyzer.SemaIf | semantic.c:74-80 | agrees with Semantic.StmtCheck on `if` |
| Analyzer.Analyzer.SemaWhile | semantic.c:81-85 | agrees with Semantic.StmtCheck on `while` |
| Analyzer.Analyzer.SemaFor | semantic.c:86-92 | agrees with Semantic.StmtCheck on `for` |
| Analyzer.Analyzer.SemaStmt | semantic.c:57-99 | sema_stmt leaves the stack Semantic.StmtCheck computes, or reports its error |
| Analyzer.Analyzer.SemaBlock | semantic.c:47-55 | agrees with Semantic.BlockCheck; on success local_vars is as it was on entry |
| Analyzer.Analyzer.DuplicateParam | semantic.c:24-35 | the outer loop returns Semantic.PrefixDuplicateFrom: the test as written, which compares names over the earlier name's length |
| Analyzer.Analyzer.ClashesLater | semantic.c:26-33 | the inner loop: true iff the i-th name clashes with some later name |
| Analyzer.Analyzer.SemaFunc | semantic.c:21-45 | agrees with Semantic.FuncCheck, the duplicate test as written included, on func_env; on success local_vars is exactly the parameters |
| Codegen.KindOf | codegen.c:175-182 | no contract; the node kind gen_stmt and is_expr see; a variable reference is ND_LVAR |
| Codegen.IsExpr | codegen.c:175-182 | no contract; is_expr: membership in expr_kinds |
| Codegen.ExprKindTableIsSet | codegen.c:175-182 | the expr_kinds table and the is_expr set hold the same kinds |
| Codegen.PopArgs | codegen.c:116-117 | the pops of a call: the i-th pop goes to arg_regs[n-1-i] |
| Codegen.Loops | codegen.c:56-89 | no contract; the number of `if` and `while` nodes in a tree, each of which adds one to label_num (Codegen.Lower states that it is the advance) |
| Codegen.OpCode | codegen.c:133-165 | gen has instructions for exactly `+`, `-`, `*`, `/`, `==`, `!=`, `<` and `<=`; any other operator is the "unreachable" error |
| Codegen.Lower | codegen.c:15-167 | when gen succeeds, it advances label_num by exactly the number of `if`/`while` nodes |
| Codegen.LowerBinop | codegen.c:127-166 | the operator case advances label_num by the loops in its operands |
| Codegen.LowerIf | codegen.c:56-75 | `if` advances label_num by one plus its nested loops |
| Codegen.LowerWhile | codegen.c:77-89 | `while` advances label_num by one plus its nested loops |
| Codegen.LowerFor | codegen.c:91-103 | `for` advances label_num only by its nested loops |
| Codegen.LowerRejected | codegen.c:127-166 | node kinds without a rule always fail |
| Codegen.LowerStmt | codegen.c:169-173 | gen_stmt advances label_num as gen does |
| Codegen.LowerSeq | codegen.c:105-110 | a block advances label_num by the loops of its statements |
| Codegen.LowerArgs | codegen.c:113-115 | the arguments advance label_num by their loops |
| Codegen.After | codegen.c:105-110 | code followed by the rest: fails iff the rest fails, otherwise the concatenation |
| Codegen.LowerSeqStep | codegen.c:105-110 | a block is its first statement's code followed by the rest |
| Codegen.LowerArgsStep | codegen.c:113-115 | the arguments are the first argument's code followed by the rest |
| CodegenFacts.NetAppend | codegen.c:15-167 | the stack effect of concatenated code is the sum of the effects |
| CodegenFacts.PopArgsNet | codegen.c:116-117 | the pops of a call take exactly n values |
| CodegenFacts.ValueLowerable | codegen.c:15-167 | a supported expression has no NULL child and no call with more than six arguments |
| CodegenFacts.ValuePushesOne | codegen.c:15-45 | gen of a supported expression succeeds and pushes exactly one value |
| CodegenFacts.AssignPushesOne | codegen.c:30-45 | an assignment pushes exactly one value |
| CodegenFacts.OperatorPushesOne | codegen.c:127-166 | an operator pushes exactly one value |
| CodegenFacts.OperateNet | codegen.c:130-166 | `pop rdi; pop rax; op; push rax` takes one value from the stack |
| CodegenFacts.CallPushesOne | codegen.c:112-125 | a call pushes exactly one value: its result |
| CodegenFacts.ArgsPushAll | codegen.c:113-115 | the arguments push one value each |
| CodegenFacts.BalancedLowerable | codegen.c:15-173 | a balanced statement is accepted by gen |
| CodegenFacts.ValueKindIsExpr | codegen.c:175-182 | every supported expression except a call has a kind in expr_kinds |
| CodegenFacts.StatementBalanced | codegen.c:169-173 | gen_stmt of a balanced statement succeeds and leaves the stack depth unchanged |
| CodegenFacts.BlockStmtBalanced | codegen.c:105-110 | a balanced block statement leaves the stack depth unchanged |
| CodegenFacts.StmtIsGen | codegen.c:169-173 | gen_stmt adds nothing after a kind outside expr_kinds |
| CodegenFacts.IfNet | codegen.c:56-75 | `if` is balanced when its condition pushes one value and its branches are balanced |
| CodegenFacts.IfCodeNet | codegen.c:56-63 | the instructions of an `if` without `else` are balanced |
| CodegenFacts.IfElseCodeNet | codegen.c:64-71 | the instructions of an `if` with `else` are balanced |
| CodegenFacts.TestNet | codegen.c:58-61 | the test after a condition pops its value |
| CodegenFacts.IfBalanced | codegen.c:56-75 | gen_stmt of a balanced `if` leaves the stack depth unchanged |
| CodegenFacts.WhileNet | codegen.c:77-89 | `while` is balanced when its condition pushes one value and its body is balanced |
| CodegenFacts.WhileCodeNet | codegen.c:77-85 | the instructions of a `while` are balanced |
| CodegenFacts.WhileBalanced | codegen.c:77-89 | gen_stmt of a balanced `while` leaves the stack depth unchanged |
| CodegenFacts.ForNet | codegen.c:91-103 | `for` is balanced when its clauses are, with the guard pushing one value |
| CodegenFacts.ForCodeNet | codegen.c:91-101 | the instructions of a `for` are balanced |
| CodegenFacts.ExprStmtBalanced | codegen.c:169-173 | an expression statement whose kind is popped is balanced |
| CodegenFacts.ForBalanced | codegen.c:91-103 | gen_stmt of a balanced `for` leaves the stack depth unchanged |
| CodegenFacts.ForParts | codegen.c:92-99 | each clause of a balanced `for` is lowered with the stated stack effect |
| CodegenFacts.BlockBalanced | codegen.c:105-110 | a block of balanced statements leaves the stack depth unchanged |
| CodegenFacts.StmtOfBlock | codegen.c:107-108 | a statement of a balanced block is balanced |
| CodegenFacts.SeqNet | codegen.c:107-108 | a balanced statement followed by balanced statements is balanced |
| Generator.Generator.constructor | codegen.c:13 | no code emitted yet and label_num = 0 |
| Generator.Generator.IsExprKind | codegen.c:175-182 | the linear search returns whether the kind is in expr_kinds |
| Generator.Generator.GenStmt | codegen.c:169-173 | appends exactly Codegen.LowerStmt's code and leaves label_num where it says, or fails with its error |
| Generator.Generator.Gen | codegen.c:15-167 | appends exactly Codegen.Lower's code and leaves label_num where it says, or fails with its error |
| Generator.Generator.GenAssign | codegen.c:30-45 | the assignment case agrees with Codegen.Lower |
| Generator.Generator.GenReturn | codegen.c:47-54 | the return case agrees with Codegen.Lower |
| Generator.Generator.GenIf | codegen.c:56-75 | the `if` case agrees with Codegen.Lower |
| Generator.Generator.GenIfThen | codegen.c:57-63 | `if` without `else` agrees with Codegen.Lower |
| Generator.Generator.GenIfElse | codegen.c:64-71 | `if` with `else` agrees with Codegen.Lower |
| Generator.Generator.GenWhile | codegen.c:77-89 | the `while` case agrees with Codegen.Lower |
| Generator.Generator.GenFor | codegen.c:91-103 | the `for` case agrees with Codegen.Lower |
| Generator.Generator.GenBlock | codegen.c:105-110 | the block case agrees with Codegen.Lower |
| Generator.Generator.GenCall | codegen.c:112-125 | the call case agrees with Codegen.Lower |
| Generator.Generator.GenArgs | codegen.c:113-115 | the argument loop agrees with Codegen.LowerArgs |
| Generator.Generator.EmitPops | codegen.c:116-117 | appends exactly Codegen.PopArgs(count) |
| Generator.Generator.GenBinop | codegen.c:127-166 | the operator case agrees with Codegen.Lower |
| Generator.Generator.GenRejected | codegen.c:127-166 | kinds without a rule agree with Codegen.Lower: their children, then the error |
| Execution.Step | codegen.c:15-167 | no contract; the effect of one instruction gen prints on registers, flags, stack and memory; None for a jump, call or return, a pop of an empty stack and a division by zero |
| Execution.Run | codegen.c:15-167 | no contract; the instructions in order, None once a step has none |
| Execution.Value | codegen.c:127-166 | no contract; the C value of an arithmetic expression, with variables read at rbp minus their offset and None for a division by zero |
| Execution.Set | codegen.c:15-167 | writing a register sets it and leaves the stack and memory alone |
| Execution.CDiv | codegen.c:143-144 | idiv truncates toward zero: the magnitude is Abs(a) / Abs(b) rounded down, the quotient is non-negative when the operands have the same sign and non-positive otherwise |
| Execution.RunAppend | codegen.c:15-167 | running concatenated code runs the first part, then the second |
| Execution.OpCodeComputes | codegen.c:133-165 | the operator instructions leave the C value of `rax op rdi` in rax |
| Execution.DivComputes | codegen.c:143-144 | `cqo; idiv rdi` leaves the truncated quotient in rax, and traps on a zero divisor |
| Execution.CompareSteps | codegen.c:147-164 | `cmp`, `setCC al` and `movzb rax, al` step by step |
| Execution.CompareComputes | codegen.c:147-164 | a comparison leaves 1 or 0 in rax |
| Execution.LowerComputes | codegen.c:15-28 | gen of an arithmetic expression pushes its C value and keeps the frame and memory; it traps exactly when the expression divides by zero |
| Execution.VarComputes | codegen.c:22-28 | a variable pushes the value at rbp minus its offset |
| Execution.VarRuns | codegen.c:22-28 | the four instructions of a variable read run as stated |
| Execution.ArithIsValue | codegen.c:15-167 | an arithmetic expression is one gen supports |
| Execution.BinopComputes | codegen.c:127-166 | an operator pushes C's value of the operation on its operands' values |
| Execution.OperateComputes | codegen.c:130-166 | with the two operand values on top of the stack, the operator leaves its C value in their place |
| Execution.PopArgsPlace | codegen.c:116-117 | popping n arguments pushed left to right puts the i-th in arg_regs[i], and leaves the other registers and the frame alone |
| Execution.ArgRegsDistinct | codegen.c:5 | the six argument registers are distinct |
| Execution.PopTwo | codegen.c:130-131 | `pop rdi; pop rax` puts the right operand in rdi and the left in rax |
| Execution.PopOne | codegen.c:130-131 | one pop moves the top value into the register and touches no other register |
| Execution.ArgValues | codegen.c:113-115 | the values of the arguments in order |
| Execution.ArithArgsValue | codegen.c:112-125 | a call with at most six arithmetic arguments is one gen supports |
| Execution.PushesCompose | codegen.c:113-115 | one push followed by pushes is the combined push |
| Execution.ArgsComputes | codegen.c:113-115 | the arguments push their values left to right |
| Execution.ArgsJoin | codegen.c:113-115 | one argument's push followed by the rest's pushes |
| Execution.ArgComputes | codegen.c:113-115 | one argument pushes its value |
| Execution.CallPlacesArgs | codegen.c:112-118 | before the `call`, the i-th argument's value is in arg_regs[i] and the stack is as it was |
| Findings.PrefixTestRejectsDistinctNames | semantic.c:28 | the test as written rejects `(int a, int ab)`, whose names are distinct |
| Findings.ValueLabelFree | codegen.c:15-45 | the code of a supported expression contains no label and no jump |
| Findings.ValueCode | codegen.c:15-45 | the code of a supported expression pushes one value and has no labels |
| Findings.Test | codegen.c:58-61 | the test pops one value and jumps to exactly its target |
| Findings.LowerFixed | codegen.c:56-103 | the repaired lowering never moves label_num backwards |
| Findings.FixedWellLabelled | codegen.c:56-110 | in the repaired lowering every label is defined once, every jump has a target, and the labels are numbered in the range the statement allocates |
| Findings.FixedBalanced | codegen.c:56-173 | the repaired lowering of every structured statement, call statements included, leaves the stack depth unchanged |
| Findings.NestedWhileLabels | codegen.c:77-89 | as written, `while (v) while (v) {}` defines `.Lwhile` twice and jumps to a `.Lwhile` that is never defined |
| Findings.SiblingForLabels | codegen.c:91-103 | as written, two `for` loops in one block define the same `.Lfor` label |
| Findings.CallStatementCode | codegen.c:112-125 | as written, a call statement is the call followed by `push rax`, with no pop |
| Findings.CallStatementLeavesValue | codegen.c:169-182 | as written, a call statement leaves one value on the stack; the repaired lowering leaves none |

## Left out

- The lexer. The model starts from a sequence of tokens. Source locations and the text of diagnostics are also not modelled: an error is a value naming its kind.
- The runtime helpers vec, map, env_new, env_next and error are not part of this model. Scope chains, vectors and maps are Dafny sequences and maps.
- Parser.Parser.Consume: consume reads the token at the cursor without a bounds check (parse.c:588-594), so past the last token it reads out of range. The model treats that as no match. expect and expect_keyword (parse.c:614-628) dereference the NULL that lookahead_any returns past the last token; the model reports a parse error there.
- Grammar.TypePre and Parser.Parser.ConsumeTypeIdentifier: consume_type_identifier reads the name of the token that lookahead(TK_IDT) returns (parse.c:642-644), which is NULL on any token that is not an identifier, for example a top-level item that starts with `;`, or `int f(,)`. The source dereferences that NULL; the model reports NotATypeName instead.
- Grammar.StructPre: a pointer to an unknown struct tag would call ptr_of(NULL). The model reports a parse error instead of building that type.
- Grammar.TypeArray: `[` not followed by a number makes type_array read the length of a NULL token (parse.c:325-326). The model reports MissingArrayLength instead.
- Codegen.KindOf and Semantic.ExprType: parse.c:511 builds a variable reference as ND_VAR with offset 0, while semantic.c:108 and codegen.c:22 handle ND_LVAR. The pass that turns one into the other and assigns frame offsets is not part of this model, so both kinds are one constructor, `Var(name, offset)`, and its offset is taken as given.
- Semantic.StmtCheck: a declaration without an initializer, `return;` and a `for` with a missing clause dereference a NULL child in semantic.c and crash. The analyser requires `Complete` for these. Other kinds that reach a NULL child report MissingOperand.
- Semantic.StmtCheck: the type equality for declarations and `return` is computed and discarded by the source. The model does not check it either.
- Analyzer.Analyzer.SemaExpr: the type is returned rather than written into the node's `type` field. The tree is a value, so nothing else observes that write.
- Codegen.Lower: integers are unbounded. The 64-bit wrap-around of `add`, `sub`, `imul`, and of immediates printed with `%d`, is not modelled.
- Codegen.Lower: `VarDecl`, `Unop` (`&`, `*`), `Cond`, `Attr`, strings, characters and do-while have no rule in gen. They fail with Unreachable or MissingOperand, which is where the source either reports "should be unreachable" or reads a NULL child.
- Codegen.Lower: the model requires `CallsFit`. A call with more than six arguments reads past arg_regs in the source.
- Codegen.Lower: the model emits instructions as a datatype rather than text. In the source, `idiv` is printed without indentation on the `cqo` line; the assembler accepts it either way.
- Execution.LowerComputes: the machine executes only straight-line code: numbers, variables and operators. It does not execute jumps, calls, `ret`, or the `and rsp, -16` alignment. `al` is a register of its own rather than the low byte of `rax`, so `movzb` copies it.
- Findings.LowerFixed: the repaired lowering is defined for structured statements only: `if`, `while` and `for` over supported expressions, and blocks. `return` is outside it, because its epilogue leaves the frame.
- Semantic.FuncCheck and Analyzer.Analyzer.SemaFunc: they model sema_func's duplicate test as written, described under Findings. The intended test is Semantic.DuplicateFrom.
- Generator.Generator.Gen: the class models gen as written, including the label numbering described under Findings. The repair is Findings.LowerFixed.

## Findings

Every `.L` label must be defined once and every jump must have a target, or the assembler rejects the output; codegen.c does not ensure either. A parameter list must be refused only when two names are equal. The rows below record where the code falls short. The model follows the code, and each row names a repaired definition next to it.

| source | as written | input that shows it | evidently intended | confidence | as-written member | corrected member |
|---|---|---|---|---|---|---|
| semantic.c:28 | `memcmp(pi->name, pj->name, pi->len)` compares only as many bytes as the first name has | `int f(int a, int ab) { ... }` is rejected as "duplicate parameter" | parameters conflict only when their names are equal | high (not executed) | Findings.PrefixTestRejectsDistinctNames | Semantic.DuplicateTestExact |
| codegen.c:56-89 | `if` and `while` print their closing labels with `label_num` as it is after the nested statements | `while (v) while (v) {}`: `.Lwhile<k>` is defined twice and `jmp .Lwhile<k+1>` has no target | each construct takes its own label number on entry | high (not executed) | Findings.NestedWhileLabels | Findings.FixedWellLabelled |
| codegen.c:91-103 | `for` never increments `label_num` | `{ for (v; v; v) {} for (v; v; v) {} }` defines `.Lfor<k>` and `.Lend_for<k>` twice | `for` takes a fresh label number like `if` and `while` | high (not executed) | Findings.SiblingForLabels | Findings.FixedWellLabelled |
| codegen.c:175-182 | expr_kinds leaves out ND_CALL, so gen_stmt does not pop a call's result | the statement `f();` leaves one value on the stack each time it runs, for example in a loop | a call statement discards its value like other expression statements | high (not executed) | Findings.CallStatementLeavesValue | Findings.FixedBalanced |
