/**
 * A meaning for the straight-line part of the generated code: a machine with
 * a value stack, registers, memory and the operands of the last comparison.
 * It shows that the pop order of gen puts the left operand in rax, so the
 * arithmetic fragment leaves the value C gives the expression on top of the
 * stack, and that the pops of a call put the i-th argument in arg_regs[i].
 */
module Execution {
  import opened Syntax
  import opened Codegen
  import opened CodegenFacts

  datatype Machine = Machine(stack: seq<int>, regs: map<Reg, int>, mem: map<int, int>, flags: (int, int))

  function Get(m: Machine, r: Reg): int
  {
    if r in m.regs then m.regs[r] else 0
  }

  function Set(m: Machine, r: Reg, v: int): (m': Machine)
    ensures Get(m', r) == v
    ensures m'.stack == m.stack && m'.mem == m.mem
  {
    m.(regs := m.regs[r := v])
  }

  function Read(mem: map<int, int>, addr: int): int
  {
    if addr in mem then mem[addr] else 0
  }

  /** Division as C defines it: the quotient is truncated toward zero. */
  function CDiv(a: int, b: int): (q: int)
    requires b != 0
    ensures Abs(q) == Abs(a) / Abs(b)
    ensures (a < 0) == (b < 0) ==> q >= 0
    ensures (a < 0) != (b < 0) ==> q <= 0
  {
    var q := Abs(a) / Abs(b);
    NatQuotient(Abs(a), Abs(b));
    if (a < 0) == (b < 0) then q else -q
  }

  /** The quotient of naturals is a natural. */
  lemma NatQuotient(x: nat, y: nat)
    requires y > 0
    ensures x / y >= 0
  {
  }

  function Abs(x: int): nat
  {
    if x < 0 then -x else x
  }

  predicate Holds(cc: Cc, flags: (int, int))
  {
    match cc
    case E => flags.0 == flags.1
    case NE => flags.0 != flags.1
    case L => flags.0 < flags.1
    case LE => flags.0 <= flags.1
  }

  /** One instruction.  Jumps, calls and returns leave straight-line code and
      have no step here; popping an empty stack and dividing by zero trap. */
  function Step(m: Machine, i: Instr): Option<Machine>
  {
    match i
    case MovImm(d, v) => Some(Set(m, d, v))
    case PushImm(v) => Some(m.(stack := m.stack + [v]))
    case Push(r) => Some(m.(stack := m.stack + [Get(m, r)]))
    case Pop(r) =>
      if |m.stack| == 0 then None
      else Some(Set(m.(stack := m.stack[..|m.stack| - 1]), r, m.stack[|m.stack| - 1]))
    case Mov(d, s) => Some(Set(m, d, Get(m, s)))
    case SubImm(d, v) => Some(Set(m, d, Get(m, d) - v))
    case Load(d, a) => Some(Set(m, d, Read(m.mem, Get(m, a))))
    case Store(a, s) => Some(m.(mem := m.mem[Get(m, a) := Get(m, s)]))
    case CmpImm(r, v) => Some(m.(flags := (Get(m, r), v)))
    case Cmp(a, b) => Some(m.(flags := (Get(m, a), Get(m, b))))
    case AddRR(d, s) => Some(Set(m, d, Get(m, d) + Get(m, s)))
    case SubRR(d, s) => Some(Set(m, d, Get(m, d) - Get(m, s)))
    case ImulRR(d, s) => Some(Set(m, d, Get(m, d) * Get(m, s)))
    case Cqo => Some(Set(m, RDX, if Get(m, RAX) < 0 then -1 else 0))
    case Idiv(s) =>
      // rdx:rax is the sign extension of rax after cqo.
      if Get(m, s) == 0 then None else Some(Set(m, RAX, CDiv(Get(m, RAX), Get(m, s))))
    case SetCC(cc, d) => Some(Set(m, d, if Holds(cc, m.flags) then 1 else 0))
    case Movzb(d, s) => Some(Set(m, d, Get(m, s)))
    case Def(_) => Some(m)
    case _ => None
  }

  function Run(m: Machine, code: seq<Instr>): Option<Machine>
    decreases |code|
  {
    if |code| == 0 then Some(m)
    else match Step(m, code[0])
      case None => None
      case Some(m') => Run(m', code[1..])
  }

  lemma {:induction false} RunAppend(m: Machine, a: seq<Instr>, b: seq<Instr>)
    ensures Run(m, a + b) == (match Run(m, a) case None => None case Some(m') => Run(m', b))
    decreases |a|
  {
    if |a| == 0 {
      assert a + b == b;
    } else {
      assert (a + b)[0] == a[0];
      assert (a + b)[1..] == a[1..] + b;
      match Step(m, a[0])
      case None =>
      case Some(m') => RunAppend(m', a[1..], b);
    }
  }

  // ---------------------------------------------------------------- arithmetic

  /** Numbers, variables and the operators gen has a rule for. */
  predicate Arith(e: Node)
  {
    match e
    case Num(_) => true
    case Var(_, _) => true
    case Binop(op, l, r) => op != Assign && Supported(op) && Arith(l) && Arith(r)
    case _ => false
  }

  /** The C value of an operator; None for a division by zero. */
  function Apply(op: BinOp, a: int, b: int): Option<int>
    requires Supported(op)
  {
    match op
    case Add => Some(a + b)
    case Sub => Some(a - b)
    case Mul => Some(a * b)
    case Div => if b == 0 then None else Some(CDiv(a, b))
    case Eq => Some(if a == b then 1 else 0)
    case Neq => Some(if a != b then 1 else 0)
    case Lt => Some(if a < b then 1 else 0)
    case Lte => Some(if a <= b then 1 else 0)
  }

  /** The value of an arithmetic expression when local variables live at
      rbp minus their offset. */
  function Value(e: Node, rbp: int, mem: map<int, int>): Option<int>
    requires Arith(e)
  {
    match e
    case Num(v) => Some(v)
    case Var(_, offset) => Some(Read(mem, rbp - offset))
    case Binop(op, l, r) =>
      match Value(l, rbp, mem)
      case None => None
      case Some(a) =>
        match Value(r, rbp, mem)
        case None => None
        case Some(b) => Apply(op, a, b)
  }

  /** The machine after an expression: one more value on the stack, the
      frame and memory untouched. */
  predicate Pushed(m: Machine, r: Option<Machine>, v: int)
  {
    r.Some? && r.value.stack == m.stack + [v] && Get(r.value, RBP) == Get(m, RBP) && r.value.mem == m.mem
  }

  /** The machine after the operator instructions: v in rax, the stack,
      frame and memory untouched. */
  predicate Leaves(m: Machine, r: Option<Machine>, v: int)
  {
    r.Some? && Get(r.value, RAX) == v && r.value.stack == m.stack &&
    Get(r.value, RBP) == Get(m, RBP) && r.value.mem == m.mem
  }

  /** The operator instructions leave Apply(op, rax, rdi) in rax. */
  lemma OpCodeComputes(op: BinOp, m: Machine)
    requires Supported(op)
    ensures OpCode(op).Ok?
    ensures var r := Run(m, OpCode(op).value);
            var v := Apply(op, Get(m, RAX), Get(m, RDI));
            (r.Some? <==> v.Some?) && (r.Some? ==> Leaves(m, r, v.value))
  {
    match op
    case Add => RunOne(m, AddRR(RAX, RDI));
    case Sub => RunOne(m, SubRR(RAX, RDI));
    case Mul => RunOne(m, ImulRR(RAX, RDI));
    case Div => DivComputes(m);
    case Eq => CompareComputes(E, m);
    case Neq => CompareComputes(NE, m);
    case Lt => CompareComputes(L, m);
    case Lte => CompareComputes(LE, m);
  }

  lemma RunOne(m: Machine, i: Instr)
    ensures Run(m, [i]) == Step(m, i)
  {
  }

  lemma DivComputes(m: Machine)
    ensures var r := Run(m, [Cqo, Idiv(RDI)]);
            (r.Some? <==> Get(m, RDI) != 0) &&
            (r.Some? ==> Leaves(m, r, CDiv(Get(m, RAX), Get(m, RDI))))
  {
    var m1 := Set(m, RDX, if Get(m, RAX) < 0 then -1 else 0);
    assert Run(m, [Cqo, Idiv(RDI)]) == Run(m1, [Idiv(RDI)]);
    RunOne(m1, Idiv(RDI));
  }

  /** The three steps of a comparison, one at a time. */
  lemma CompareSteps(m: Machine, cc: Cc, d: Reg)
    ensures Step(m, Cmp(RAX, RDI)) == Some(m.(flags := (Get(m, RAX), Get(m, RDI))))
    ensures Step(m, SetCC(cc, d)) == Some(Set(m, d, if Holds(cc, m.flags) then 1 else 0))
    ensures Step(m, Movzb(RAX, AL)) == Some(Set(m, RAX, Get(m, AL)))
  {
  }

  lemma CompareComputes(cc: Cc, m: Machine)
    ensures var r := Run(m, Compare(cc));
            Leaves(m, r, if Holds(cc, (Get(m, RAX), Get(m, RDI))) then 1 else 0)
  {
    var m1 := m.(flags := (Get(m, RAX), Get(m, RDI)));
    var m2 := Set(m1, AL, if Holds(cc, m1.flags) then 1 else 0);
    var m3 := Set(m2, RAX, Get(m2, AL));
    CompareSteps(m, cc, AL);
    CompareSteps(m1, cc, AL);
    CompareSteps(m2, cc, AL);
    RunThree(m, Compare(cc), m1, m2, m3);
  }

  /** The first instruction of straight-line code. */
  lemma RunStep(m: Machine, code: seq<Instr>, m': Machine)
    requires |code| > 0 && Step(m, code[0]) == Some(m')
    ensures Run(m, code) == Run(m', code[1..])
  {
  }

  /** Two instructions in a row. */
  lemma RunTwo(m: Machine, c: seq<Instr>, m1: Machine, m2: Machine)
    requires |c| == 2 && Step(m, c[0]) == Some(m1) && Step(m1, c[1]) == Some(m2)
    ensures Run(m, c) == Some(m2)
  {
    RunStep(m, c, m1);
    RunStep(m1, c[1..], m2);
  }

  /** Three instructions in a row. */
  lemma RunThree(m: Machine, c: seq<Instr>, m1: Machine, m2: Machine, m3: Machine)
    requires |c| == 3 && Step(m, c[0]) == Some(m1) && Step(m1, c[1]) == Some(m2) && Step(m2, c[2]) == Some(m3)
    ensures Run(m, c) == Some(m3)
  {
    RunStep(m, c, m1);
    assert c[1..][0] == c[1];
    RunStep(m1, c[1..], m2);
    assert c[1..][1..][0] == c[2];
    RunStep(m2, c[1..][1..], m3);
  }

  /** gen of an arithmetic expression pushes its C value, and traps exactly
      when the expression divides by zero. */
  lemma {:induction false} LowerComputes(e: Node, k: nat, m: Machine)
    requires Arith(e)
    ensures Lowerable(e) && Lower(e, k).Done?
    ensures var v := Value(e, Get(m, RBP), m.mem);
            var r := Run(m, Lower(e, k).value.code);
            (r.Some? <==> v.Some?) && (v.Some? ==> Pushed(m, r, v.value))
    decreases e
  {
    match e
    case Num(v) =>
      RunTwo(m, [MovImm(RAX, v), PushImm(v)], Set(m, RAX, v), Set(m, RAX, v).(stack := m.stack + [v]));
    case Var(_, offset) =>
      VarComputes(offset, m);
    case Binop(op, l, r) =>
      BinopComputes(e, k, m);
  }

  lemma VarComputes(offset: int, m: Machine)
    ensures Pushed(m, Run(m, [Mov(RAX, RBP), SubImm(RAX, offset), Load(RAX, RAX), Push(RAX)]),
                   Read(m.mem, Get(m, RBP) - offset))
  {
    VarRuns(offset, m);
    var v := Read(m.mem, Get(m, RBP) - offset);
    var m3 := Set(Set(Set(m, RAX, Get(m, RBP)), RAX, Get(m, RBP) - offset), RAX, v);
    assert Get(m3, RBP) == Get(m, RBP);
  }

  lemma VarRuns(offset: int, m: Machine)
    ensures var v := Read(m.mem, Get(m, RBP) - offset);
            var m3 := Set(Set(Set(m, RAX, Get(m, RBP)), RAX, Get(m, RBP) - offset), RAX, v);
            Run(m, [Mov(RAX, RBP), SubImm(RAX, offset), Load(RAX, RAX), Push(RAX)]) == Some(m3.(stack := m3.stack + [v]))
  {
    var code := [Mov(RAX, RBP), SubImm(RAX, offset), Load(RAX, RAX), Push(RAX)];
    var rbp := Get(m, RBP);
    var m1 := Set(m, RAX, rbp);
    var m2 := Set(m1, RAX, rbp - offset);
    var m3 := Set(m2, RAX, Read(m.mem, rbp - offset));
    RunStep(m, code, m1);
    RunThree(m1, code[1..], m2, m3, m3.(stack := m3.stack + [Read(m.mem, rbp - offset)]));
  }

  lemma ArithIsValue(e: Node)
    requires Arith(e)
    ensures ValueExpr(e)
  {
    if e.Binop? {
      ArithIsValue(e.lhs);
      ArithIsValue(e.rhs);
    }
  }

  lemma {:induction false} BinopComputes(e: Node, k: nat, m: Machine)
    requires e.Binop? && Arith(e)
    ensures Lowerable(e) && Lower(e, k).Done?
    ensures var v := Value(e, Get(m, RBP), m.mem);
            var r := Run(m, Lower(e, k).value.code);
            (r.Some? <==> v.Some?) && (v.Some? ==> Pushed(m, r, v.value))
    decreases e, 0
  {
    ArithIsValue(e);
    ValueLowerable(e);
    LowerComputes(e.lhs, k, m);
    var lc := Lower(e.lhs, k).value;
    LowerComputes(e.rhs, lc.next, m);
    var rc := Lower(e.rhs, lc.next).value;
    var tail := OpCode(e.op).value;
    assert Lower(e, k) == LowerBinop(e, k);
    RunAppend(m, lc.code + rc.code, Operate(tail));
    RunAppend(m, lc.code, rc.code);
    var lv := Value(e.lhs, Get(m, RBP), m.mem);
    if lv.Some? {
      var m1 := Run(m, lc.code).value;
      LowerComputes(e.rhs, lc.next, m1);
      var rv := Value(e.rhs, Get(m, RBP), m.mem);
      if rv.Some? {
        OperateComputes(e.op, Run(m1, rc.code).value, m.stack, lv.value, rv.value);
      }
    }
  }

  /** With the left and right values on top of the stack, the operator
      leaves its C value in their place. */
  lemma OperateComputes(op: BinOp, m: Machine, base: seq<int>, a: int, b: int)
    requires Supported(op) && m.stack == base + [a] + [b]
    ensures OpCode(op).Ok?
    ensures var r := Run(m, Operate(OpCode(op).value));
            var v := Apply(op, a, b);
            (r.Some? <==> v.Some?) &&
            (r.Some? ==> r.value.stack == base + [v.value] && Get(r.value, RBP) == Get(m, RBP) && r.value.mem == m.mem)
  {
    var tail := OpCode(op).value;
    var pops := [Pop(RDI), Pop(RAX)];
    var m2 := PopTwo(m, base, a, b);
    RunAppend(m, pops + tail, [Push(RAX)]);
    RunAppend(m, pops, tail);
    OpCodeComputes(op, m2);
    var r := Run(m2, tail);
    if r.Some? {
      RunOne(r.value, Push(RAX));
    }
  }

  // ---------------------------------------------------------------- calls

  /** Popping n arguments pushed left to right puts the i-th in arg_regs[i],
      leaves the argument registers beyond n and the frame alone. */
  lemma {:induction false} PopArgsPlace(m: Machine, base: seq<int>, vals: seq<int>)
    requires |vals| <= |ArgRegs| && m.stack == base + vals
    ensures var r := Run(m, PopArgs(|vals|));
            r.Some? && r.value.stack == base && r.value.mem == m.mem && Get(r.value, RBP) == Get(m, RBP) &&
            (forall i | 0 <= i < |vals| :: Get(r.value, ArgRegs[i]) == vals[i]) &&
            (forall j | |vals| <= j < |ArgRegs| :: Get(r.value, ArgRegs[j]) == Get(m, ArgRegs[j]))
    decreases |vals|
  {
    var n := |vals|;
    if n > 0 {
      var rest := vals[..n - 1];
      var m1 := PopOne(m, base + rest, ArgRegs[n - 1], vals[n - 1]);
      assert Run(m, PopArgs(n)) == Run(m1, PopArgs(n - 1));
      PopArgsPlace(m1, base, rest);
      var r := Run(m1, PopArgs(n - 1)).value;
      forall i | 0 <= i < n
        ensures Get(r, ArgRegs[i]) == vals[i]
      {
        if i < n - 1 {
          assert rest[i] == vals[i];
        }
      }
      forall j | n <= j < |ArgRegs|
        ensures Get(r, ArgRegs[j]) == Get(m, ArgRegs[j])
      {
        ArgRegsDistinct(n - 1, j);
      }
    }
  }

  /** The argument registers are six different registers. */
  lemma ArgRegsDistinct(i: nat, j: nat)
    requires i < j < |ArgRegs|
    ensures ArgRegs[i] != ArgRegs[j]
  {
  }

  /** The two pops of a binary operator: the right operand into rdi, the
      left one into rax. */
  lemma PopTwo(m: Machine, base: seq<int>, a: int, b: int) returns (m2: Machine)
    requires m.stack == base + [a] + [b]
    ensures Run(m, [Pop(RDI), Pop(RAX)]) == Some(m2)
    ensures m2.stack == base && m2.mem == m.mem
    ensures Get(m2, RAX) == a && Get(m2, RDI) == b && Get(m2, RBP) == Get(m, RBP)
  {
    var pops := [Pop(RDI), Pop(RAX)];
    var m1 := PopOne(m, base + [a], RDI, b);
    m2 := PopOne(m1, base, RAX, a);
    RunStep(m, pops, m1);
    RunStep(m1, pops[1..], m2);
  }

  /** One pop of the top value into a register. */
  lemma PopOne(m: Machine, below: seq<int>, reg: Reg, v: int) returns (m': Machine)
    requires m.stack == below + [v]
    ensures Step(m, Pop(reg)) == Some(m')
    ensures m'.stack == below && m'.mem == m.mem && Get(m', reg) == v
    ensures forall q | q != reg :: Get(m', q) == Get(m, q)
  {
    assert m.stack[..|m.stack| - 1] == below;
    m' := Set(m.(stack := below), reg, v);
  }

  /** Every argument is arithmetic and has a value. */
  predicate ArgsDefined(args: seq<Node>, rbp: int, mem: map<int, int>)
  {
    forall a | a in args :: Arith(a) && Value(a, rbp, mem).Some?
  }

  /** The values of the arguments from the i-th on, left to right. */
  function ArgValues(args: seq<Node>, i: nat, rbp: int, mem: map<int, int>): (vs: seq<int>)
    requires i <= |args| && ArgsDefined(args, rbp, mem)
    ensures |vs| == |args| - i
    ensures forall j | 0 <= j < |vs| :: vs[j] == Value(args[i + j], rbp, mem).value
    decreases |args| - i
  {
    if i == |args| then [] else [Value(args[i], rbp, mem).value] + ArgValues(args, i + 1, rbp, mem)
  }

  lemma ArithArgsValue(call: Node, rbp: int, mem: map<int, int>)
    requires call.Call? && |call.args| <= |ArgRegs| && ArgsDefined(call.args, rbp, mem)
    ensures ValueExpr(call) && Lowerable(call)
  {
    forall a | a in call.args
      ensures ValueExpr(a)
    {
      ArithIsValue(a);
    }
    ValueLowerable(call);
  }

  /** Running code pushes vals on the stack and keeps the frame and memory. */
  predicate PushesAll(m: Machine, code: seq<Instr>, vals: seq<int>)
  {
    var r := Run(m, code);
    r.Some? && r.value.stack == m.stack + vals && Get(r.value, RBP) == Get(m, RBP) && r.value.mem == m.mem
  }

  lemma PushesCompose(m: Machine, m1: Machine, c1: seq<Instr>, c2: seq<Instr>, v: int, vals: seq<int>)
    requires Run(m, c1) == Some(m1) && m1.stack == m.stack + [v]
    requires Get(m1, RBP) == Get(m, RBP) && m1.mem == m.mem
    requires PushesAll(m1, c2, vals)
    ensures PushesAll(m, c1 + c2, [v] + vals)
  {
    RunAppend(m, c1, c2);
  }

  /** The arguments from the i-th on push their values left to right. */
  lemma {:induction false} ArgsComputes(call: Node, i: nat, k: nat, m: Machine)
    requires call.Call? && |call.args| <= |ArgRegs| && i <= |call.args|
    requires ArgsDefined(call.args, Get(m, RBP), m.mem) && Lowerable(call)
    ensures LowerArgs(call, i, k).Done?
    ensures PushesAll(m, LowerArgs(call, i, k).value.code, ArgValues(call.args, i, Get(m, RBP), m.mem))
    decreases |call.args| - i
  {
    if i < |call.args| {
      var a, m1 := ArgComputes(call, i, k, m);
      ArgsComputes(call, i + 1, a.next, m1);
      ArgsJoin(call, i, k, m, a, m1);
    }
  }

  /** One argument's pushes followed by the pushes of the rest. */
  lemma ArgsJoin(call: Node, i: nat, k: nat, m: Machine, a: Lowered, m1: Machine)
    requires call.Call? && |call.args| <= |ArgRegs| && i < |call.args|
    requires ArgsDefined(call.args, Get(m, RBP), m.mem) && Lowerable(call)
    requires Lower(call.args[i], k) == Done(a) && Run(m, a.code) == Some(m1)
    requires m1.stack == m.stack + [Value(call.args[i], Get(m, RBP), m.mem).value]
    requires Get(m1, RBP) == Get(m, RBP) && m1.mem == m.mem
    requires LowerArgs(call, i + 1, a.next).Done?
    requires PushesAll(m1, LowerArgs(call, i + 1, a.next).value.code, ArgValues(call.args, i + 1, Get(m, RBP), m.mem))
    ensures LowerArgs(call, i, k).Done?
    ensures PushesAll(m, LowerArgs(call, i, k).value.code, ArgValues(call.args, i, Get(m, RBP), m.mem))
  {
    LowerArgsStep(call, i, k);
    PushesCompose(m, m1, a.code, LowerArgs(call, i + 1, a.next).value.code,
                  Value(call.args[i], Get(m, RBP), m.mem).value, ArgValues(call.args, i + 1, Get(m, RBP), m.mem));
  }

  /** The i-th argument pushes its value. */
  lemma ArgComputes(call: Node, i: nat, k: nat, m: Machine) returns (a: Lowered, m1: Machine)
    requires call.Call? && |call.args| <= |ArgRegs| && i < |call.args|
    requires ArgsDefined(call.args, Get(m, RBP), m.mem)
    requires Lowerable(call)
    ensures Lower(call.args[i], k) == Done(a)
    ensures Run(m, a.code) == Some(m1)
    ensures m1.stack == m.stack + [Value(call.args[i], Get(m, RBP), m.mem).value]
    ensures Get(m1, RBP) == Get(m, RBP) && m1.mem == m.mem
  {
    var e := call.args[i];
    assert e in call.args;
    LowerComputes(e, k, m);
    a := Lower(e, k).value;
    m1 := Run(m, a.code).value;
  }

  /** A call with arithmetic arguments: after its pushes and pops, and before
      the stack is aligned and the callee entered, the i-th argument's value
      is in arg_regs[i] and the stack is as before. */
  lemma CallPlacesArgs(e: Node, k: nat, m: Machine)
    requires e.Call? && |e.args| <= |ArgRegs| && ArgsDefined(e.args, Get(m, RBP), m.mem)
    ensures Lowerable(e) && LowerArgs(e, 0, k).Done? && Lower(e, k).Done?
    ensures var setup := LowerArgs(e, 0, k).value.code + PopArgs(|e.args|);
            Lower(e, k).value.code == setup + [AlignStack, CallSym(e.callee), Push(RAX)] &&
            var r := Run(m, setup);
            r.Some? && r.value.stack == m.stack &&
            forall i | 0 <= i < |e.args| :: Get(r.value, ArgRegs[i]) == Value(e.args[i], Get(m, RBP), m.mem).value
  {
    ArithArgsValue(e, Get(m, RBP), m.mem);
    ArgsComputes(e, 0, k, m);
    var a := LowerArgs(e, 0, k).value;
    var vs := ArgValues(e.args, 0, Get(m, RBP), m.mem);
    var m1 := Run(m, a.code).value;
    PopArgsPlace(m1, m.stack, vs);
    RunAppend(m, a.code, PopArgs(|e.args|));
  }
}
