/**
 * The in-place side of Optimizer.c: the instruction list that
 * delete_instruction and fold_instruction rewrite, and the driver loop of
 * main that slides the three-instruction window over it.
 *
 * The doubly-linked list is held as the sequence of its nodes in list order;
 * a node is named by its position, and Option's None stands for NULL. The
 * head is the first position, so making the folded instruction the new head
 * (Optimizer.c:155, 171, 183) needs no separate step here.
 */
module InstructionStream {
  import opened Results
  import opened IR
  import opened Peephole

  class InstructionList {
    var instrs: seq<Instruction>

    /** The list ReadInstructionList builds. */
    constructor (instrs: seq<Instruction>)
      ensures this.instrs == instrs
    {
      this.instrs := instrs;
    }

    /** instr->prev. */
    static function Prev(node: nat): Option<nat> {
      if node == 0 then None else Some(node - 1)
    }

    /**
     * delete_instruction: on NULL nothing happens; otherwise the node's
     * predecessor and successor become neighbours and every other node keeps
     * its place in the order.
     */
    method Delete(node: Option<nat>)
      requires node.Some? ==> node.value < |instrs|
      modifies this
      ensures node.None? ==> instrs == old(instrs)
      ensures node.Some? ==> instrs == old(instrs)[..node.value] + old(instrs)[node.value + 1..]
    {
      if node.None? {
        return;
      }
      var k := node.value;
      instrs := instrs[..k] + instrs[k + 1..];
    }

    /**
     * fold_instruction: deletes the (at most two) instructions immediately
     * before `node`, keeps its field1 and overwrites its opcode, field2 and
     * field3. Returns the node's new position.
     */
    method Fold(node: Option<nat>, opcode: OpCode, field2: int, field3: int) returns (at: Option<nat>)
      requires node.Some? ==> node.value < |instrs|
      modifies this
      ensures node.None? ==> at.None? && instrs == old(instrs)
      ensures node.Some? ==>
        var k := node.value;
        var d := if k < 2 then k else 2;
        at == Some(k - d)
        && instrs == old(instrs)[..k - d]
                     + [old(instrs)[k].(opcode := opcode, field2 := field2, field3 := field3)]
                     + old(instrs)[k + 1..]
    {
      if node.None? {
        return None;
      }
      var k := node.value;
      ghost var s, k0 := instrs, k;
      Delete(Prev(k));
      if k > 0 {
        k := k - 1;
      }
      ghost var d1 := k0 - k;
      assert instrs == s[..k0 - d1] + s[k0..];
      Delete(Prev(k));
      if k > 0 {
        k := k - 1;
      }
      assert instrs == s[..k] + s[k0..];
      assert instrs[k] == s[k0] && instrs[k + 1..] == s[k0 + 1..];
      instrs := instrs[k := instrs[k].(opcode := opcode, field2 := field2, field3 := field3)];
      at := Some(k);
    }
  }

  /**
   * One turn of the loop of main (Optimizer.c:139-189) on the window whose
   * first instruction is at `i`: the list changes exactly as Decide says,
   * and the window then moves one instruction on.
   */
  method SimplifyWindow(list: InstructionList, i: nat) returns (next: nat)
    requires i + 2 < |list.instrs|
    modifies list
    ensures next == i + 1
    ensures
      var s := old(list.instrs);
      match Decide(s[i], s[i + 1], s[i + 2])
      case Some(f) => list.instrs == s[..i] + [f] + s[i + 3..]
      case None => list.instrs == s
  {
    var instr1, instr2, instr3 := list.instrs[i], list.instrs[i + 1], list.instrs[i + 2];
    var (result, outs) := ScanPattern(instr1, instr2, instr3, UNSET);
    if result == 0 {
      return i + 1;
    }
    if result == 2 {
      if outs.opcode == SUB {
        var at := list.Fold(Some(i + 2), LOADI, 0, EMPTY_FIELD);
        return at.value + 1;
      } else {
        return i + 1;
      }
    }
    if outs.opcode == MUL && outs.c == 0 {
      var at := list.Fold(Some(i + 2), LOADI, 0, EMPTY_FIELD);
      return at.value + 1;
    }
    if (outs.opcode == ADD && outs.c == 0)
       || (outs.opcode == MUL && outs.c == 1)
       || (outs.opcode == SUB && outs.c == 0 && outs.varFirst != 0)
    {
      var at := list.Fold(Some(i + 2), LOAD, outs.id, EMPTY_FIELD);
      return at.value + 1;
    }
    return i + 1;
  }

  /**
   * The algebraic-simplification loop of main: fails on an empty list, and
   * otherwise leaves the list as Simplify computes it, which the lemmas of
   * Peephole describe.
   */
  method AlgebraicSimplification(list: InstructionList) returns (r: Outcome<OptimizerError>)
    modifies list
    ensures match Simplify(old(list.instrs))
      case Ok(t) => r == Pass && list.instrs == t
      case Err(err) => r == Fail(err) && list.instrs == old(list.instrs)
  {
    if list.instrs == [] {
      return Fail(NoInstructions);
    }
    var i: nat := 0;  // position of instr1
    while i + 2 < |list.instrs|
      invariant i <= |list.instrs|
      invariant SimplifyFrom(list.instrs, i) == SimplifyFrom(old(list.instrs), 0)
      decreases |list.instrs| - i
    {
      ghost var s := list.instrs;
      var next := SimplifyWindow(list, i);
      match Decide(s[i], s[i + 1], s[i + 2]) {
        case Some(f) => SimplifyFold(s, i, f);
        case None => SimplifySkip(s, i);
      }
      i := next;
    }
    r := Pass;
  }
}
