/**
 * The three-address instruction format shared by the tinyL compiler and the
 * peephole optimizer, and a small reference interpreter for it.
 *
 * Instr.h, which declares the opcode enumeration, is not part of this model;
 * the enumeration below holds exactly the opcodes the two passes use.
 */
module IR {
  import opened Results

  datatype OpCode = LOADI | LOAD | STORE | ADD | SUB | MUL | READ | WRITE

  /** The sentinel stored in a field the instruction does not use. */
  const EMPTY_FIELD: int := 0xFFFFF

  /**
   * Field meanings by opcode:
   *   LOADI dst, imm      LOAD dst, var       STORE var, src
   *   ADD/SUB/MUL dst, src1, src2             READ var     WRITE var
   * Variables are stored as their character codes ('a' .. 'd').
   */
  datatype Instruction = Instruction(opcode: OpCode, field1: int, field2: int, field3: int)

  predicate IsArith(op: OpCode) {
    op == ADD || op == SUB || op == MUL
  }

  /** What ADD, SUB and MUL compute from their two source values. */
  function Arith(op: OpCode, x: int, y: int): int
    requires IsArith(op)
  {
    match op
    case ADD => x + y
    case SUB => x - y
    case MUL => x * y
  }

  /** Opcodes whose field1 names a destination register. */
  predicate WritesRegister(op: OpCode) {
    op == LOADI || op == LOAD || IsArith(op)
  }

  /** The destination register of `i`, if it has one. */
  function DestOf(i: Instruction): seq<int> {
    if WritesRegister(i.opcode) then [i.field1] else []
  }

  /** The destination registers of `code`, in emission order. */
  function Dests(code: seq<Instruction>): seq<int> {
    if code == [] then [] else DestOf(code[0]) + Dests(code[1..])
  }

  lemma {:induction false} DestsAppend(a: seq<Instruction>, b: seq<Instruction>)
    ensures Dests(a + b) == Dests(a) + Dests(b)
  {
    if a == [] {
      assert a + b == b;
    } else {
      calc {
        Dests(a + b);
        DestOf(a[0]) + Dests((a + b)[1..]);
        { assert (a + b)[1..] == a[1..] + b; DestsAppend(a[1..], b); }
        DestOf(a[0]) + (Dests(a[1..]) + Dests(b));
      }
    }
  }

  /** Appending code in three steps is appending it once. */
  lemma AppendThree(out: seq<Instruction>, a: seq<Instruction>, b: seq<Instruction>, i: Instruction)
    ensures out + a + b + [i] == out + (a + b + [i])
  {
  }

  lemma DestsCons(i: Instruction, rest: seq<Instruction>)
    ensures Dests([i] + rest) == DestOf(i) + Dests(rest)
  {
    assert ([i] + rest)[1..] == rest;
  }

  /** The integers lo, lo + 1, ..., hi - 1. */
  function Range(lo: int, hi: int): (r: seq<int>)
    requires lo <= hi
    ensures |r| == hi - lo
    ensures forall k :: 0 <= k < |r| ==> r[k] == lo + k
    decreases hi - lo
  {
    if lo == hi then [] else [lo] + Range(lo + 1, hi)
  }

  lemma RangeAppend(lo: int, mid: int, hi: int)
    requires lo <= mid <= hi
    ensures Range(lo, mid) + Range(mid, hi) == Range(lo, hi)
  {
    assert forall k :: 0 <= k < hi - lo ==> (Range(lo, mid) + Range(mid, hi))[k] == lo + k;
  }

  /** Code made of two blocks and one instruction, each writing the next
      registers in turn, writes one consecutive range. */
  lemma DestsThree(a: seq<Instruction>, b: seq<Instruction>, last: Instruction, lo: int, mid: int, hi: int)
    requires lo <= mid <= hi
    requires Dests(a) == Range(lo, mid) && Dests(b) == Range(mid, hi) && DestOf(last) == [hi]
    ensures Dests(a + b + [last]) == Range(lo, hi + 1)
  {
    DestsAppend(a, b);
    DestsAppend(a + b, [last]);
    DestsCons(last, []);
    assert [last] + [] == [last];
    RangeAppend(lo, mid, hi);
    RangeAppend(lo, hi, hi + 1);
    assert Range(hi, hi + 1) == [hi];
  }

  /** Two neighbouring instructions that both write a register contribute
      two neighbouring entries of Dests. */
  lemma DestsAdjacent(code: seq<Instruction>, k: nat)
    requires k + 1 < |code| && WritesRegister(code[k].opcode) && WritesRegister(code[k + 1].opcode)
    ensures var j := |Dests(code[..k])|;
      j + 1 < |Dests(code)| && Dests(code)[j] == code[k].field1 && Dests(code)[j + 1] == code[k + 1].field1
  {
    var rest := code[k + 2..];
    assert code == code[..k] + ([code[k]] + ([code[k + 1]] + rest));
    DestsAppend(code[..k], [code[k]] + ([code[k + 1]] + rest));
    DestsCons(code[k], [code[k + 1]] + rest);
    DestsCons(code[k + 1], rest);
  }

  ghost predicate StrictlyIncreasing(s: seq<int>) {
    forall i, j :: 0 <= i < j < |s| ==> s[i] < s[j]
  }

  // -------------------------------------------------------------------------
  // Reference semantics of the instruction set
  // -------------------------------------------------------------------------

  /**
   * Variables and registers are maps from their number to their value; a
   * variable or register never written reads as 0. `input` holds the values
   * READ will consume and `output` the values WRITE has produced.
   */
  datatype Machine = Machine(vars: map<int, int>, regs: map<int, int>,
                             input: seq<int>, output: seq<int>)

  function Get(m: map<int, int>, k: int): int {
    if k in m then m[k] else 0
  }

  /** One instruction; None when READ finds the input exhausted. */
  function Step(m: Machine, i: Instruction): Option<Machine> {
    match i.opcode
    case LOADI => Some(m.(regs := m.regs[i.field1 := i.field2]))
    case LOAD => Some(m.(regs := m.regs[i.field1 := Get(m.vars, i.field2)]))
    case STORE => Some(m.(vars := m.vars[i.field1 := Get(m.regs, i.field2)]))
    case ADD | SUB | MUL => Some(m.(regs := m.regs[i.field1 := Arith(i.opcode, Get(m.regs, i.field2), Get(m.regs, i.field3))]))
    case READ =>
      if m.input == [] then None
      else Some(m.(vars := m.vars[i.field1 := m.input[0]], input := m.input[1..]))
    case WRITE => Some(m.(output := m.output + [Get(m.vars, i.field1)]))
  }

  /** An instruction that writes a register changes that register only. */
  lemma StepWritesRegister(m: Machine, i: Instruction)
    requires WritesRegister(i.opcode)
    ensures var n := Step(m, i);
      n.Some? && n.value == m.(regs := m.regs[i.field1 := Get(n.value.regs, i.field1)])
  {
  }

  function Exec(code: seq<Instruction>, m: Machine): Option<Machine>
    decreases |code|
  {
    if code == [] then Some(m)
    else match Step(m, code[0])
      case None => None
      case Some(m1) => Exec(code[1..], m1)
  }

  lemma ExecCons(i: Instruction, rest: seq<Instruction>, m: Machine)
    ensures Exec([i] + rest, m) == match Step(m, i) case None => None case Some(m1) => Exec(rest, m1)
  {
    assert ([i] + rest)[1..] == rest;
  }

  lemma ExecOne(i: Instruction, m: Machine)
    ensures Exec([i], m) == Step(m, i)
  {
    assert [i][1..] == [];
  }

  lemma {:induction false} ExecAppend(a: seq<Instruction>, b: seq<Instruction>, m: Machine)
    ensures Exec(a + b, m) == match Exec(a, m) case None => None case Some(m1) => Exec(b, m1)
  {
    if a == [] {
      assert a + b == b;
    } else {
      assert (a + b)[1..] == a[1..] + b;
      match Step(m, a[0])
      case None =>
      case Some(m1) => ExecAppend(a[1..], b, m1);
    }
  }
}
