/**
 * What each grammar rule of Compiler.c emits, as a function of the parsed
 * tree and the first free virtual register, and what that code means.
 */
module CodeGen {
  import opened Results
  import opened IR
  import opened Syntax

  /** Code for an expression, the register holding its value, and the next
      free register. */
  datatype ExprCode = ExprCode(code: seq<Instruction>, dest: int, next: int)

  /** Code for statements and the next free register. */
  datatype StmtCode = StmtCode(code: seq<Instruction>, next: int)

  function ArithOp(op: BinOp): OpCode {
    match op
    case Plus => ADD
    case Minus => SUB
    case Times => MUL
  }

  /** expr(): the left operand's code, the right operand's code, then the
      operation into a register allocated after both. */
  function GenExpr(e: Expr, reg: int): ExprCode {
    match e
    case Const(d) => ExprCode([Instruction(LOADI, reg, d, EMPTY_FIELD)], reg, reg + 1)
    case Var(v) => ExprCode([Instruction(LOAD, reg, v as int, EMPTY_FIELD)], reg, reg + 1)
    case Binary(op, l, r) =>
      var gl := GenExpr(l, reg);
      var gr := GenExpr(r, gl.next);
      ExprCode(gl.code + gr.code + [Instruction(ArithOp(op), gr.next, gl.dest, gr.dest)],
               gr.next, gr.next + 1)
  }

  /** The four instructions of swap() for `%xy` with first free register `reg`. */
  function SwapCode(x: VarName, y: VarName, reg: int): seq<Instruction> {
    [Instruction(LOAD, reg, x as int, EMPTY_FIELD),
     Instruction(LOAD, reg + 1, y as int, EMPTY_FIELD),
     Instruction(STORE, x as int, reg + 1, EMPTY_FIELD),
     Instruction(STORE, y as int, reg, EMPTY_FIELD)]
  }

  function GenStmt(s: Stmt, reg: int): StmtCode {
    match s
    case Assign(v, e) =>
      var g := GenExpr(e, reg);
      StmtCode(g.code + [Instruction(STORE, v as int, g.dest, EMPTY_FIELD)], g.next)
    case Swap(x, y) => StmtCode(SwapCode(x, y, reg), reg + 2)
    case Read(v) => StmtCode([Instruction(READ, v as int, EMPTY_FIELD, EMPTY_FIELD)], reg)
    case Print(v) => StmtCode([Instruction(WRITE, v as int, EMPTY_FIELD, EMPTY_FIELD)], reg)
  }

  function GenList(ss: seq<Stmt>, reg: int): StmtCode
    decreases |ss|
  {
    if ss == [] then StmtCode([], reg)
    else
      var g := GenStmt(ss[0], reg);
      var gs := GenList(ss[1..], g.next);
      StmtCode(g.code + gs.code, gs.next)
  }

  /** The code of a list is its first statement's code, then the rest's. */
  lemma GenListPrepend(s: Stmt, rest: seq<Stmt>, reg: int)
    ensures GenList([s] + rest, reg)
      == StmtCode(GenStmt(s, reg).code + GenList(rest, GenStmt(s, reg).next).code,
                  GenList(rest, GenStmt(s, reg).next).next)
  {
    assert ([s] + rest)[0] == s && ([s] + rest)[1..] == rest;
  }

  /** Compiling two lists one after the other is compiling their
      concatenation: the second list's registers continue where the first
      list's stopped. */
  lemma {:induction false} GenListAppend(ss1: seq<Stmt>, ss2: seq<Stmt>, reg: int)
    ensures var g1 := GenList(ss1, reg); var g2 := GenList(ss2, g1.next);
      GenList(ss1 + ss2, reg) == StmtCode(g1.code + g2.code, g2.next)
    decreases |ss1|
  {
    if ss1 == [] {
      assert ss1 + ss2 == ss2;
    } else {
      var g := GenStmt(ss1[0], reg);
      assert (ss1 + ss2)[0] == ss1[0] && (ss1 + ss2)[1..] == ss1[1..] + ss2;
      GenListAppend(ss1[1..], ss2, g.next);
      var g1 := GenList(ss1[1..], g.next);
      var g2 := GenList(ss2, g1.next);
      assert g.code + (g1.code + g2.code) == (g.code + g1.code) + g2.code;
    }
  }

  /** The whole compiler output for a program; registers start at 1. */
  function GenProgram(ss: StmtList): seq<Instruction> {
    GenList(ss, 1).code
  }

  // -------------------------------------------------------------------------
  // Register allocation
  // -------------------------------------------------------------------------

  /** An expression's code writes the registers reg, reg + 1, ... once each,
      in that order, and its value is in the last of them. */
  lemma {:induction false} GenExprRegisters(e: Expr, reg: int)
    ensures var g := GenExpr(e, reg);
      reg < g.next && g.dest == g.next - 1 && Dests(g.code) == Range(reg, g.next)
  {
    match e
    case Const(_) =>
    case Var(_) =>
    case Binary(op, l, r) =>
      var gl := GenExpr(l, reg);
      var gr := GenExpr(r, gl.next);
      GenExprRegisters(l, reg);
      GenExprRegisters(r, gl.next);
      DestsThree(gl.code, gr.code, Instruction(ArithOp(op), gr.next, gl.dest, gr.dest), reg, gl.next, gr.next);
  }

  /** The operation emitted for `op l r` reads the operands' result
      registers, both allocated before its own destination. */
  lemma BinaryDestAfterOperands(op: BinOp, l: Expr, r: Expr, reg: int)
    ensures var g := GenExpr(Binary(op, l, r), reg);
      var last := g.code[|g.code| - 1];
      last == Instruction(ArithOp(op), g.dest, GenExpr(l, reg).dest, GenExpr(r, GenExpr(l, reg).next).dest)
      && last.field2 < last.field1 && last.field3 < last.field1
  {
    GenExprRegisters(l, reg);
    GenExprRegisters(r, GenExpr(l, reg).next);
  }

  /** swap() writes two fresh registers. */
  lemma SwapRegisters(x: VarName, y: VarName, reg: int)
    ensures Dests(SwapCode(x, y, reg)) == Range(reg, reg + 2)
  {
    var i0, i1 := Instruction(LOAD, reg, x as int, EMPTY_FIELD), Instruction(LOAD, reg + 1, y as int, EMPTY_FIELD);
    var i2, i3 := Instruction(STORE, x as int, reg + 1, EMPTY_FIELD), Instruction(STORE, y as int, reg, EMPTY_FIELD);
    assert SwapCode(x, y, reg) == [i0] + ([i1] + ([i2] + ([i3] + [])));
    DestsCons(i3, []);
    DestsCons(i2, [i3] + []);
    DestsCons(i1, [i2] + ([i3] + []));
    DestsCons(i0, [i1] + ([i2] + ([i3] + [])));
    assert Range(reg, reg + 2) == [reg, reg + 1];
  }

  lemma GenStmtRegisters(s: Stmt, reg: int)
    ensures var g := GenStmt(s, reg); reg <= g.next && Dests(g.code) == Range(reg, g.next)
  {
    match s
    case Assign(v, e) =>
      var g := GenExpr(e, reg);
      GenExprRegisters(e, reg);
      DestsAppend(g.code, [Instruction(STORE, v as int, g.dest, EMPTY_FIELD)]);
    case Swap(x, y) =>
      SwapRegisters(x, y, reg);
    case Read(_) =>
    case Print(_) =>
  }

  lemma {:induction false} GenListRegisters(ss: seq<Stmt>, reg: int)
    ensures var g := GenList(ss, reg); reg <= g.next && Dests(g.code) == Range(reg, g.next)
    decreases |ss|
  {
    if ss != [] {
      var g := GenStmt(ss[0], reg);
      var gs := GenList(ss[1..], g.next);
      GenStmtRegisters(ss[0], reg);
      GenListRegisters(ss[1..], g.next);
      DestsAppend(g.code, gs.code);
      RangeAppend(reg, g.next, gs.next);
    }
  }

  /** Over a whole compilation, destination registers are 1, 2, 3, ... in
      emission order: strictly increasing, so never reused. */
  lemma ProgramRegisters(ss: StmtList)
    ensures var d := Dests(GenProgram(ss));
      StrictlyIncreasing(d) && forall k :: 0 <= k < |d| ==> d[k] == k + 1
  {
    GenListRegisters(ss, 1);
  }

  // -------------------------------------------------------------------------
  // Meaning of the emitted code
  // -------------------------------------------------------------------------

  /** The source-level operator computes what its opcode does. */
  function Apply(op: BinOp, x: int, y: int): int {
    Arith(ArithOp(op), x, y)
  }

  /** The value of an expression when the variables hold `vars`. */
  function Eval(e: Expr, vars: map<int, int>): int {
    match e
    case Const(d) => d
    case Var(v) => Get(vars, v as int)
    case Binary(op, l, r) => Apply(op, Eval(l, vars), Eval(r, vars))
  }

  /** The operation expr() emits computes `op` on its two source registers. */
  lemma StepOperation(op: BinOp, m: Machine, d: int, x: int, y: int)
    ensures Step(m, Instruction(ArithOp(op), d, x, y))
      == Some(m.(regs := m.regs[d := Apply(op, Get(m.regs, x), Get(m.regs, y))]))
  {
    match op
    case Plus =>
    case Minus =>
    case Times =>
  }

  /** Running an expression's code leaves the variables, the input and the
      output alone, puts the expression's value in its result register and
      touches no register below `reg`. */
  lemma {:induction false} GenExprCorrect(e: Expr, reg: int, m: Machine)
    ensures var g := GenExpr(e, reg); var r := Exec(g.code, m);
      r.Some? && r.value.vars == m.vars && r.value.input == m.input && r.value.output == m.output
      && Get(r.value.regs, g.dest) == Eval(e, m.vars)
      && forall k :: k < reg ==> Get(r.value.regs, k) == Get(m.regs, k)
  {
    match e
    case Const(_) =>
    case Var(_) =>
    case Binary(op, l, r) =>
      var gl := GenExpr(l, reg);
      var gr := GenExpr(r, gl.next);
      GenExprRegisters(l, reg);
      GenExprRegisters(r, gl.next);
      var last := Instruction(ArithOp(op), gr.next, gl.dest, gr.dest);
      GenExprCorrect(l, reg, m);
      var m1 := Exec(gl.code, m).value;
      GenExprCorrect(r, gl.next, m1);
      var m2 := Exec(gr.code, m1).value;
      assert Get(m2.regs, gl.dest) == Eval(l, m.vars);
      StepOperation(op, m2, gr.next, gl.dest, gr.dest);
      ExecCons(last, [], m2);
      assert [last] + [] == [last];
      var m3 := m2.(regs := m2.regs[gr.next := Apply(op, Eval(l, m.vars), Eval(r, m.vars))]);
      ExecAppend(gl.code, gr.code, m);
      ExecAppend(gl.code + gr.code, [last], m);
      assert Exec(gl.code + gr.code + [last], m) == Some(m3);
  }

  lemma AssignCorrect(v: VarName, e: Expr, reg: int, m: Machine)
    ensures var r := Exec(GenStmt(Assign(v, e), reg).code, m);
      r.Some? && r.value.vars == m.vars[v as int := Eval(e, m.vars)]
      && r.value.input == m.input && r.value.output == m.output
  {
    var g := GenExpr(e, reg);
    var store := Instruction(STORE, v as int, g.dest, EMPTY_FIELD);
    GenExprCorrect(e, reg, m);
    var m1 := Exec(g.code, m).value;
    ExecAppend(g.code, [store], m);
    ExecOne(store, m1);
  }

  /** `%xy` exchanges the values of x and y without a temporary variable. */
  lemma SwapExchanges(x: VarName, y: VarName, reg: int, m: Machine)
    ensures var r := Exec(SwapCode(x, y, reg), m);
      r.Some? && r.value.vars == m.vars[x as int := Get(m.vars, y as int)][y as int := Get(m.vars, x as int)]
      && Get(r.value.vars, x as int) == Get(m.vars, y as int)
      && Get(r.value.vars, y as int) == Get(m.vars, x as int)
      && r.value.input == m.input && r.value.output == m.output
  {
    var code := SwapCode(x, y, reg);
    var m1 := Step(m, code[0]).value;
    var m2 := Step(m1, code[1]).value;
    var m3 := Step(m2, code[2]).value;
    var m4 := Step(m3, code[3]).value;
    ExecCons(code[3], [], m3);
    ExecCons(code[2], [code[3]], m2);
    ExecCons(code[1], code[2..], m1);
    ExecCons(code[0], code[1..], m);
    assert code == [code[0]] + code[1..] && code[1..] == [code[1]] + code[2..] && code[2..] == [code[2], code[3]];
  }

  /** & and # emit one instruction naming the variable and allocate nothing. */
  lemma ReadPrintEffects(v: VarName, reg: int, m: Machine)
    ensures var r := Exec(GenStmt(Read(v), reg).code, m);
      (m.input == [] ==> r.None?)
      && (m.input != [] ==> r == Some(m.(vars := m.vars[v as int := m.input[0]], input := m.input[1..])))
    ensures Exec(GenStmt(Print(v), reg).code, m) == Some(m.(output := m.output + [Get(m.vars, v as int)]))
    ensures GenStmt(Read(v), reg).next == reg && GenStmt(Print(v), reg).next == reg
  {
  }
}
