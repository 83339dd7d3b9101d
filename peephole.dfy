/**
 * The algebraic-simplification pass of Optimizer.c: the three-instruction
 * classifier scan_pattern, the fold table of the driver loop in main, and the
 * driver itself as a function on the instruction sequence (the imperative
 * driver in InstructionStream is proved to compute it).
 */
module Peephole {
  import opened Results
  import opened IR
  import CodeGen

  /** The out-parameters of scan_pattern: *id, *opcode, *c and *var_first. */
  datatype ScanOut = ScanOut(id: int, opcode: OpCode, c: int, varFirst: int)

  /**
   * scan_pattern(instr1, instr2, instr3, &id, &opcode, &c, &var_first).
   * `outs` holds the out-parameters on entry; the result pairs the return
   * value with their values on exit. Returns 1 for (<id> <op> <c>) and
   * (<c> <op> <id>), 2 for (<id> <op> <id>) and 0 otherwise, and only
   * considers ADD, SUB and MUL.
   */
  function ScanPattern(i1: Instruction, i2: Instruction, i3: Instruction, outs: ScanOut): (r: (int, ScanOut))
    ensures r.0 == 0 || r.0 == 1 || r.0 == 2
    ensures !IsArith(i3.opcode) ==> r.0 == 0
    ensures r.0 == 0 ==> r.1 == outs
    ensures r.0 != 0 ==>
      IsArith(i3.opcode) && r.1.opcode == i3.opcode
      && i1.field1 == i3.field2 && i2.field1 == i3.field3
      && (i1.opcode == LOAD || i1.opcode == LOADI) && (i2.opcode == LOAD || i2.opcode == LOADI)
    ensures r.0 == 2 ==>
      i1.opcode == LOAD && i2.opcode == LOAD && i1.field2 == i2.field2
      && r.1 == outs.(id := i1.field2, opcode := i3.opcode)
  {
    if !IsArith(i3.opcode) then (0, outs)
    else if i1.opcode == LOAD && i2.opcode == LOADI
         && i1.field1 == i3.field2 && i2.field1 == i3.field3 then
      (1, ScanOut(i1.field2, i3.opcode, i2.field2, 1))
    else if i1.opcode == LOADI && i2.opcode == LOAD
         && i1.field1 == i3.field2 && i2.field1 == i3.field3 then
      (1, ScanOut(i2.field2, i3.opcode, i1.field2, 0))
    else if i1.opcode == LOAD && i2.opcode == LOAD && i1.field2 == i2.field2
         && i1.field1 == i3.field2 && i2.field1 == i3.field3 then
      (2, outs.(id := i1.field2, opcode := i3.opcode))
    else (0, outs)
  }

  /**
   * scan_pattern recognises exactly its three shapes (Optimizer.c:55-61):
   * two loads feeding field2 and field3 of an ADD, SUB or MUL give 1 when one
   * is a LOAD and the other a LOADI, and 2 when both LOAD the same variable.
   * For 1 it reports the variable, the constant and whether the variable
   * comes first.
   */
  lemma ShapesRecognised(i1: Instruction, i2: Instruction, i3: Instruction, outs: ScanOut)
    ensures var (res, o) := ScanPattern(i1, i2, i3, outs);
      var feeds := IsArith(i3.opcode) && i1.field1 == i3.field2 && i2.field1 == i3.field3;
      (res == 1 <==> feeds && ((i1.opcode == LOAD && i2.opcode == LOADI) || (i1.opcode == LOADI && i2.opcode == LOAD)))
      && (res == 2 <==> feeds && i1.opcode == LOAD && i2.opcode == LOAD && i1.field2 == i2.field2)
      && (res == 1 && i1.opcode == LOAD ==> o == ScanOut(i1.field2, i3.opcode, i2.field2, 1))
      && (res == 1 && i1.opcode == LOADI ==> o == ScanOut(i2.field2, i3.opcode, i1.field2, 0))
  {
  }

  /**
   * The driver's decision for one scan result: the opcode, field2 and field3
   * to fold instr3 into, or None to advance the window.
   *   - (<id> - <id>)                         => LOADI 0
   *   - (<id> * 0), (0 * <id>)                => LOADI 0
   *   - (<id> + 0), (0 + <id>), (<id> * 1),
   *     (1 * <id>), (<id> - 0)                => LOAD <id>
   */
  function FoldDecision(result: int, outs: ScanOut): Option<(OpCode, int, int)> {
    if result == 0 then None
    else if result == 2 then
      if outs.opcode == SUB then Some((LOADI, 0, EMPTY_FIELD)) else None
    else if outs.opcode == MUL && outs.c == 0 then Some((LOADI, 0, EMPTY_FIELD))
    else if (outs.opcode == ADD && outs.c == 0)
         || (outs.opcode == MUL && outs.c == 1)
         || (outs.opcode == SUB && outs.c == 0 && outs.varFirst != 0) then
      Some((LOAD, outs.id, EMPTY_FIELD))
    else None
  }

  /** The out-parameters are uninitialised locals of main; any value will do,
      because the driver only reads those scan_pattern has set. */
  const UNSET: ScanOut := ScanOut(0, LOADI, 0, 0)

  lemma DecisionIgnoresInitialOuts(i1: Instruction, i2: Instruction, i3: Instruction, outs: ScanOut)
    ensures var (res, o) := ScanPattern(i1, i2, i3, outs);
      var (res', o') := ScanPattern(i1, i2, i3, UNSET);
      FoldDecision(res, o) == FoldDecision(res', o')
  {
  }

  /** The instruction a window folds into, if the driver folds it. */
  function Decide(i1: Instruction, i2: Instruction, i3: Instruction): (r: Option<Instruction>)
    ensures r.Some? ==>
      r.value.field1 == i3.field1 && r.value.field3 == EMPTY_FIELD
      && (r.value.opcode == LOADI || r.value.opcode == LOAD)
  {
    var (result, outs) := ScanPattern(i1, i2, i3, UNSET);
    match FoldDecision(result, outs)
    case None => None
    case Some((opcode, field2, field3)) => Some(i3.(opcode := opcode, field2 := field2, field3 := field3))
  }

  // -------------------------------------------------------------------------
  // Meaning of a classification and soundness of a fold
  // -------------------------------------------------------------------------

  /** Running a window with no READ in it. */
  lemma ExecWindow(i1: Instruction, i2: Instruction, i3: Instruction, m: Machine)
    requires i1.opcode != READ && i2.opcode != READ && i3.opcode != READ
    ensures Step(m, i1).Some? && Step(Step(m, i1).value, i2).Some?
      && Step(Step(Step(m, i1).value, i2).value, i3).Some?
    ensures Exec([i1, i2, i3], m) == Step(Step(Step(m, i1).value, i2).value, i3)
  {
    var m1 := Step(m, i1).value;
    var m2 := Step(m1, i2).value;
    ExecCons(i3, [], m2);
    ExecCons(i2, [i3], m1);
    ExecCons(i1, [i2, i3], m);
    assert [i1, i2, i3] == [i1] + [i2, i3] && [i2, i3] == [i2] + [i3] && [i3] == [i3] + [];
  }

  /**
   * What a classification says: with result 1, instr3 computes `id op c`
   * (or `c op id` when var_first is 0) from the variable id; with result 2,
   * `id op id`. Needs the two loaded registers to differ.
   */
  lemma ScanPatternMeaning(i1: Instruction, i2: Instruction, i3: Instruction, outs: ScanOut, m: Machine)
    requires i1.field1 != i2.field1
    ensures var (res, o) := ScanPattern(i1, i2, i3, outs);
      var w := Exec([i1, i2, i3], m);
      var x := Get(m.vars, o.id);
      res != 0 ==>
        w.Some? && w.value.vars == m.vars && w.value.input == m.input && w.value.output == m.output
        && Get(w.value.regs, i3.field1)
           == if res == 2 || o.varFirst != 0 then Arith(o.opcode, x, if res == 2 then x else o.c)
              else Arith(o.opcode, o.c, x)
  {
    var (res, o) := ScanPattern(i1, i2, i3, outs);
    if res != 0 {
      ExecWindow(i1, i2, i3, m);
    }
  }

  /** m1 and m2 agree on the variables, the input, the output and every
      register outside `dead`. */
  ghost predicate AgreeExcept(m1: Machine, m2: Machine, dead: set<int>) {
    m1.vars == m2.vars && m1.input == m2.input && m1.output == m2.output
    && forall k :: k !in dead ==> Get(m1.regs, k) == Get(m2.regs, k)
  }

  /** The value a folded instruction produces is the value the window
      computed: x - x = x * 0 = 0 * x = 0 and x + 0 = 0 + x = x * 1 = 1 * x
      = x - 0 = x. */
  lemma FoldValue(res: int, o: ScanOut, x: int)
    requires (res == 1 || res == 2) && FoldDecision(res, o).Some?
    ensures var (opcode, field2, _) := FoldDecision(res, o).value;
      IsArith(o.opcode) && (opcode == LOADI || (opcode == LOAD && field2 == o.id))
      && (if opcode == LOADI then field2 else x)
         == if res == 2 || o.varFirst != 0 then Arith(o.opcode, x, if res == 2 then x else o.c)
            else Arith(o.opcode, o.c, x)
  {
  }

  /** Three register writes and a single write of the same value to the
      last register agree outside the first two registers. */
  lemma WritesAgree(m: Machine, a: int, va: int, b: int, vb: int, c: int, v: int)
    ensures AgreeExcept(m.(regs := m.regs[a := va][b := vb][c := v]), m.(regs := m.regs[c := v]), {a, b} - {c})
  {
  }

  /**
   * Local soundness of a fold: the folded instruction has the same effect as
   * the window, except on the two registers the window's deleted
   * instructions loaded, for every value of the variables.
   */
  lemma FoldSound(i1: Instruction, i2: Instruction, i3: Instruction, m: Machine)
    requires Decide(i1, i2, i3).Some?
    requires i1.field1 != i2.field1
    ensures var before := Exec([i1, i2, i3], m);
      var after := Exec([Decide(i1, i2, i3).value], m);
      before.Some? && after.Some?
      && AgreeExcept(before.value, after.value, {i1.field1, i2.field1} - {i3.field1})
  {
    var (res, o) := ScanPattern(i1, i2, i3, UNSET);
    ScanPatternMeaning(i1, i2, i3, UNSET, m);
    FoldValue(res, o, Get(m.vars, o.id));
    var f := Decide(i1, i2, i3).value;
    ExecWindow(i1, i2, i3, m);
    var m1 := Step(m, i1).value;
    var m2 := Step(m1, i2).value;
    StepWritesRegister(m, i1);
    StepWritesRegister(m1, i2);
    StepWritesRegister(m2, i3);
    StepWritesRegister(m, f);
    ExecCons(f, [], m);
    assert [f] == [f] + [];
    WritesAgree(m, i1.field1, Get(m1.regs, i1.field1), i2.field1, Get(m2.regs, i2.field1),
                i3.field1, Get(Step(m, f).value.regs, i3.field1));
  }

  /** Without distinct registers a fold is wrong: `LOAD r1,a; LOADI r1,0;
      ADD r3,r1,r1` computes 0, but is folded to `LOAD r3,a`. */
  lemma FoldNeedsDistinctRegisters()
    ensures var i1 := Instruction(LOAD, 1, 'a' as int, EMPTY_FIELD);
      var i2 := Instruction(LOADI, 1, 0, EMPTY_FIELD);
      var i3 := Instruction(ADD, 3, 1, 1);
      var m := Machine(map['a' as int := 5], map[], [], []);
      var f := Instruction(LOAD, 3, 'a' as int, EMPTY_FIELD);
      Decide(i1, i2, i3) == Some(f)
      && Exec([i1, i2, i3], m).Some? && Get(Exec([i1, i2, i3], m).value.regs, 3) == 0
      && Exec([f], m).Some? && Get(Exec([f], m).value.regs, 3) == 5
  {
    var i1 := Instruction(LOAD, 1, 'a' as int, EMPTY_FIELD);
    var i2 := Instruction(LOADI, 1, 0, EMPTY_FIELD);
    var i3 := Instruction(ADD, 3, 1, 1);
    var m := Machine(map['a' as int := 5], map[], [], []);
    ExecWindow(i1, i2, i3, m);
    ExecCons(Instruction(LOAD, 3, 'a' as int, EMPTY_FIELD), [], m);
  }

  function LoadVar(r: int, x: int): Instruction {
    Instruction(LOAD, r, x, EMPTY_FIELD)
  }

  function LoadConst(r: int, c: int): Instruction {
    Instruction(LOADI, r, c, EMPTY_FIELD)
  }

  /**
   * Every row of the fold table fires on its window, whatever the registers
   * and the variable: x-x, x*0 and 0*x become `LOADI r3, 0`; x+0, 0+x, x*1,
   * 1*x and x-0 become `LOAD r3, x`; 0-x is left alone.
   */
  lemma IdentitiesFold(r1: int, r2: int, r3: int, x: int)
    ensures Decide(LoadVar(r1, x), LoadVar(r2, x), Instruction(SUB, r3, r1, r2)) == Some(LoadConst(r3, 0))
    ensures Decide(LoadVar(r1, x), LoadConst(r2, 0), Instruction(MUL, r3, r1, r2)) == Some(LoadConst(r3, 0))
    ensures Decide(LoadConst(r1, 0), LoadVar(r2, x), Instruction(MUL, r3, r1, r2)) == Some(LoadConst(r3, 0))
    ensures Decide(LoadVar(r1, x), LoadConst(r2, 0), Instruction(ADD, r3, r1, r2)) == Some(LoadVar(r3, x))
    ensures Decide(LoadConst(r1, 0), LoadVar(r2, x), Instruction(ADD, r3, r1, r2)) == Some(LoadVar(r3, x))
    ensures Decide(LoadVar(r1, x), LoadConst(r2, 1), Instruction(MUL, r3, r1, r2)) == Some(LoadVar(r3, x))
    ensures Decide(LoadConst(r1, 1), LoadVar(r2, x), Instruction(MUL, r3, r1, r2)) == Some(LoadVar(r3, x))
    ensures Decide(LoadVar(r1, x), LoadConst(r2, 0), Instruction(SUB, r3, r1, r2)) == Some(LoadVar(r3, x))
    ensures Decide(LoadConst(r1, 0), LoadVar(r2, x), Instruction(SUB, r3, r1, r2)) == None
  {
  }

  /** `0 - id` is not an identity and is never folded; nor are `id + id`,
      `id * id`, and a product of id with a constant other than 0 or 1. */
  lemma NonIdentitiesKept(id: int, c: int)
    ensures FoldDecision(1, ScanOut(id, SUB, 0, 0)) == None
    ensures FoldDecision(2, ScanOut(id, ADD, c, 0)) == None
    ensures FoldDecision(2, ScanOut(id, MUL, c, 0)) == None
    ensures c != 0 && c != 1 ==> FoldDecision(1, ScanOut(id, MUL, c, 0)) == None
    ensures c != 0 && c != 1 ==> FoldDecision(1, ScanOut(id, MUL, c, 1)) == None
  {
  }

  // -------------------------------------------------------------------------
  // The driver loop
  // -------------------------------------------------------------------------

  /**
   * The sliding window starting at position i: while three instructions
   * remain, fold the window and resume just after the folded instruction,
   * or advance by one.
   */
  function SimplifyFrom(s: seq<Instruction>, i: nat): seq<Instruction>
    requires i <= |s|
    decreases |s| - i
  {
    if i + 2 >= |s| then s
    else match Decide(s[i], s[i + 1], s[i + 2])
      case Some(f) => SimplifyFrom(s[..i] + [f] + s[i + 3..], i + 1)
      case None => SimplifyFrom(s, i + 1)
  }

  /** One step of the driver on a window it folds. */
  lemma SimplifyFold(s: seq<Instruction>, i: nat, f: Instruction)
    requires i + 2 < |s| && Decide(s[i], s[i + 1], s[i + 2]) == Some(f)
    ensures SimplifyFrom(s, i) == SimplifyFrom(s[..i] + [f] + s[i + 3..], i + 1)
  {
  }

  /** One step of the driver on a window it leaves alone. */
  lemma SimplifySkip(s: seq<Instruction>, i: nat)
    requires i + 2 < |s| && Decide(s[i], s[i + 1], s[i + 2]).None?
    ensures SimplifyFrom(s, i) == SimplifyFrom(s, i + 1)
  {
  }

  /** The whole pass; an empty list is an error. */
  function Simplify(s: seq<Instruction>): Result<seq<Instruction>, OptimizerError> {
    if s == [] then Err(NoInstructions) else Ok(SimplifyFrom(s, 0))
  }

  datatype OptimizerError = NoInstructions

  /**
   * `t` is `s` with some non-overlapping windows folded: `s` splits into
   * consecutive pieces, each either one instruction kept as it is or three
   * instructions replaced by what Decide folds them into.
   */
  ghost predicate RewritesTo(s: seq<Instruction>, t: seq<Instruction>)
    decreases |s|
  {
    if s == [] then
      t == []
    else
      t != [] &&
      ((t[0] == s[0] && RewritesTo(s[1..], t[1..]))
       || (|s| >= 3 && Decide(s[0], s[1], s[2]) == Some(t[0]) && RewritesTo(s[3..], t[1..])))
  }

  lemma {:induction false} RewritesToReflexive(s: seq<Instruction>)
    ensures RewritesTo(s, s)
    decreases |s|
  {
    if s != [] {
      RewritesToReflexive(s[1..]);
    }
  }

  /** Each fold removes exactly two instructions. */
  lemma {:induction false} RewritesLength(s: seq<Instruction>, t: seq<Instruction>)
    requires RewritesTo(s, t)
    ensures |t| <= |s| && (|s| - |t|) % 2 == 0
    decreases |s|
  {
    if s != [] {
      if t[0] == s[0] && RewritesTo(s[1..], t[1..]) {
        RewritesLength(s[1..], t[1..]);
      } else {
        RewritesLength(s[3..], t[1..]);
      }
    }
  }

  /** A fold at `i` followed by a rewrite from `i + 1` is a rewrite from `i`. */
  lemma RewritesAfterFold(s: seq<Instruction>, i: nat, f: Instruction, r: seq<Instruction>)
    requires i + 2 < |s| && Decide(s[i], s[i + 1], s[i + 2]) == Some(f)
    requires var s' := s[..i] + [f] + s[i + 3..];
      i + 1 <= |r| && r[..i + 1] == s'[..i + 1] && RewritesTo(s'[i + 1..], r[i + 1..])
    ensures i <= |r| && r[..i] == s[..i] && RewritesTo(s[i..], r[i..])
  {
    var s' := s[..i] + [f] + s[i + 3..];
    assert s'[..i + 1] == s[..i] + [f];
    assert r[..i] == r[..i + 1][..i];
    assert s'[i + 1..] == s[i + 3..] == s[i..][3..];
    assert r[i..][1..] == r[i + 1..];
    assert r[i..][0] == f;
  }

  /** Keeping the instruction at `i` followed by a rewrite from `i + 1` is a
      rewrite from `i`. */
  lemma RewritesAfterSkip(s: seq<Instruction>, i: nat, r: seq<Instruction>)
    requires i < |s|
    requires i + 1 <= |r| && r[..i + 1] == s[..i + 1] && RewritesTo(s[i + 1..], r[i + 1..])
    ensures i <= |r| && r[..i] == s[..i] && RewritesTo(s[i..], r[i..])
  {
    assert r[..i] == r[..i + 1][..i];
    assert r[i..][1..] == r[i + 1..] && s[i..][1..] == s[i + 1..];
    assert r[i..][0] == r[..i + 1][i] == s[i];
  }

  /** The pass keeps what lies before the window start and rewrites the rest
      by folding windows of original instructions: a folded instruction is
      never examined again. */
  lemma {:induction false} SimplifyFromRewrites(s: seq<Instruction>, i: nat)
    requires i <= |s|
    ensures var r := SimplifyFrom(s, i); i <= |r| && r[..i] == s[..i] && RewritesTo(s[i..], r[i..])
    decreases |s| - i
  {
    if i + 2 >= |s| {
      RewritesToReflexive(s[i..]);
    } else {
      match Decide(s[i], s[i + 1], s[i + 2])
      case Some(f) =>
        var s' := s[..i] + [f] + s[i + 3..];
        SimplifyFromRewrites(s', i + 1);
        SimplifyFold(s, i, f);
        RewritesAfterFold(s, i, f, SimplifyFrom(s', i + 1));
      case None =>
        SimplifyFromRewrites(s, i + 1);
        SimplifySkip(s, i);
        RewritesAfterSkip(s, i, SimplifyFrom(s, i + 1));
    }
  }

  /** The pass never lengthens the list, shrinks it by two per fold, and
      never empties a non-empty list. */
  lemma SimplifyLength(s: seq<Instruction>)
    ensures var r := SimplifyFrom(s, 0);
      RewritesTo(s, r) && |r| <= |s| && (|s| - |r|) % 2 == 0 && (s != [] ==> r != [])
  {
    SimplifyFromRewrites(s, 0);
    assert s[0..] == s;
    var r := SimplifyFrom(s, 0);
    assert r[0..] == r;
    RewritesLength(s, r);
  }

  /** When no window of the list can be folded the pass changes nothing. */
  lemma {:induction false} NoFoldLeavesListAlone(s: seq<Instruction>, i: nat)
    requires i <= |s|
    requires forall k :: 0 <= k < |s| - 2 ==> Decide(s[k], s[k + 1], s[k + 2]).None?
    ensures SimplifyFrom(s, i) == s
    decreases |s| - i
  {
    if i + 2 < |s| {
      assert Decide(s[i], s[i + 1], s[i + 2]).None?;
      NoFoldLeavesListAlone(s, i + 1);
    }
  }

  /** A foldable window at the head becomes the new head. */
  lemma FoldAtHead(s: seq<Instruction>)
    requires |s| >= 3 && Decide(s[0], s[1], s[2]).Some?
    ensures |SimplifyFrom(s, 0)| >= 1 && SimplifyFrom(s, 0)[0] == Decide(s[0], s[1], s[2]).value
  {
    var f := Decide(s[0], s[1], s[2]).value;
    var s' := s[..0] + [f] + s[3..];
    SimplifyFromRewrites(s', 1);
    assert SimplifyFrom(s', 1)[..1] == s'[..1] == [f];
  }

  /**
   * A second pass can fold what the first left: resuming after the folded
   * instruction misses a window that ends at it. This is the code of
   * `b=*1+a0.` (Compiler.SecondPassSample).
   */
  lemma SecondPassCanFold()
    ensures var s := [LoadConst(1, 1), LoadVar(2, 'a' as int), LoadConst(3, 0), Instruction(ADD, 4, 2, 3),
                      Instruction(MUL, 5, 1, 4), Instruction(STORE, 'b' as int, 5, EMPTY_FIELD)];
      var once := [LoadConst(1, 1), LoadVar(4, 'a' as int), Instruction(MUL, 5, 1, 4),
                   Instruction(STORE, 'b' as int, 5, EMPTY_FIELD)];
      SimplifyFrom(s, 0) == once
      && SimplifyFrom(once, 0) == [LoadVar(5, 'a' as int), Instruction(STORE, 'b' as int, 5, EMPTY_FIELD)]
  {
    var store := Instruction(STORE, 'b' as int, 5, EMPTY_FIELD);
    var s := [LoadConst(1, 1), LoadVar(2, 'a' as int), LoadConst(3, 0), Instruction(ADD, 4, 2, 3),
              Instruction(MUL, 5, 1, 4), store];
    var once := [LoadConst(1, 1), LoadVar(4, 'a' as int), Instruction(MUL, 5, 1, 4), store];
    var twice := [LoadVar(5, 'a' as int), store];
    SimplifySkip(s, 0);
    SimplifyFold(s, 1, LoadVar(4, 'a' as int));
    assert s[..1] + [LoadVar(4, 'a' as int)] + s[4..] == once;
    SimplifyFold(once, 0, LoadVar(5, 'a' as int));
    assert once[..0] + [LoadVar(5, 'a' as int)] + once[3..] == twice;
  }

  // -------------------------------------------------------------------------
  // On the compiler's own output every fold is sound
  // -------------------------------------------------------------------------

  /** In compiled code the two loads of any window the pass folds write
      different registers, so FoldSound applies to it. */
  lemma CompiledWindowsHaveDistinctLoads(ss: CodeGen.Syntax.StmtList, k: nat)
    requires var code := CodeGen.GenProgram(ss); k + 2 < |code| && Decide(code[k], code[k + 1], code[k + 2]).Some?
    ensures var code := CodeGen.GenProgram(ss); code[k].field1 != code[k + 1].field1
  {
    var code := CodeGen.GenProgram(ss);
    CodeGen.ProgramRegisters(ss);
    DestsAdjacent(code, k);
  }
}
