/**
 * The tinyL front end of Compiler.c: a recursive-descent parser that emits
 * three-address code as it recognizes each rule.
 *
 * The C globals become the fields of a parse context: `buffer` is the input
 * with a cursor `pos` (reading past the end yields '\0'), `regnum` is the next
 * free virtual register, and `out` stands for the file CodeGen writes to.
 * Where the C code prints a diagnostic and exits, a method returns the error.
 *
 * Every grammar method is specified by the pure recognizer in Syntax and the
 * code generator in CodeGen: on success its new cursor, register counter and
 * output are those of the parsed tree; on failure it returns the same error
 * and the output written so far is still a prefix of what it was extended to.
 */
module Compiler {
  import opened Results
  import opened IR
  import opened Syntax
  import opened CodeGen
  import Peephole

  class Parser {
    const input: seq<char>
    var pos: nat
    var regnum: int
    var out: seq<Instruction>

    ghost predicate Valid()
      reads this
    {
      pos <= |input|
    }

    /** The state main() sets up before calling program(). */
    constructor (input: seq<char>)
      ensures Valid()
      ensures this.input == input && pos == 0 && regnum == 1 && out == []
    {
      this.input := input;
      pos := 0;
      regnum := 1;
      out := [];
    }

    /** `token`, the character under the cursor. */
    function Token(): char
      reads this
    {
      TokenAt(input, pos)
    }

    method NextToken()
      requires pos < |input|
      modifies this`pos
      ensures pos == old(pos) + 1
    {
      pos := pos + 1;
    }

    /** Hands out the current counter and increments it by one. */
    method NextRegister() returns (reg: int)
      modifies this`regnum
      ensures reg == old(regnum) && regnum == old(regnum) + 1
    {
      reg := regnum;
      regnum := regnum + 1;
    }

    method CodeGen(opcode: OpCode, field1: int, field2: int, field3: int)
      modifies this`out
      ensures out == old(out) + [Instruction(opcode, field1, field2, field3)]
    {
      out := out + [Instruction(opcode, field1, field2, field3)];
    }

    method Digit() returns (r: Result<int, ParseError>)
      requires Valid()
      modifies this
      ensures Valid()
      ensures IsDigit(old(Token())) ==>
        r == Ok(old(regnum)) && pos == old(pos) + 1 && regnum == old(regnum) + 1
        && out == old(out) + [Instruction(LOADI, old(regnum), ToDigit(old(Token())), EMPTY_FIELD)]
        && 0 <= ToDigit(old(Token())) <= 9
      ensures !IsDigit(old(Token())) ==>
        r == Err(ParseError(ExpectedDigit, old(Token())))
        && pos == old(pos) && regnum == old(regnum) && out == old(out)
    {
      if !IsDigit(Token()) {
        return Err(ParseError(ExpectedDigit, Token()));
      }
      var reg := NextRegister();
      CodeGen(LOADI, reg, ToDigit(Token()), EMPTY_FIELD);
      NextToken();
      return Ok(reg);
    }

    /** Only used to fetch a variable's value, never to store into it. */
    method Variable() returns (r: Result<int, ParseError>)
      requires Valid()
      modifies this
      ensures Valid()
      ensures IsIdentifier(old(Token())) ==>
        r == Ok(old(regnum)) && pos == old(pos) + 1 && regnum == old(regnum) + 1
        && out == old(out) + [Instruction(LOAD, old(regnum), old(Token()) as int, EMPTY_FIELD)]
      ensures !IsIdentifier(old(Token())) ==>
        r == Err(ParseError(ExpectedIdentifier, old(Token())))
        && pos == old(pos) && regnum == old(regnum) && out == old(out)
    {
      if !IsIdentifier(Token()) {
        return Err(ParseError(ExpectedIdentifier, Token()));
      }
      var reg := NextRegister();
      CodeGen(LOAD, reg, Token() as int, EMPTY_FIELD);
      NextToken();
      return Ok(reg);
    }

    /** Returns the register that holds the expression's value. */
    method Expr() returns (r: Result<int, ParseError>)
      requires Valid()
      modifies this
      ensures Valid() && old(pos) <= pos && old(out) <= out
      ensures match ParseExpr(input, old(pos))
        case Ok((e, next)) =>
          var g := GenExpr(e, old(regnum));
          r == Ok(g.dest) && pos == next && regnum == g.next && out == old(out) + g.code
        case Err(err) => r == Err(err)
      decreases |input| - pos
    {
      var t := Token();
      if t == '+' || t == '-' || t == '*' {
        var op := if t == '+' then ADD else if t == '-' then SUB else MUL;
        ghost var p0, reg0, out0 := pos, regnum, out;
        NextToken();
        var left := Expr();
        if left.Err? {
          return left;
        }
        ghost var (le, p1) := ParseExpr(input, p0 + 1).value;
        var right := Expr();
        if right.Err? {
          return right;
        }
        ghost var (re, _) := ParseExpr(input, p1).value;
        var reg := NextRegister();
        CodeGen(op, reg, left.value, right.value);
        AppendThree(out0, GenExpr(le, reg0).code, GenExpr(re, GenExpr(le, reg0).next).code,
                    Instruction(op, reg, left.value, right.value));
        r := Ok(reg);
      } else if IsIdentifier(t) {
        r := Variable();
      } else if IsDigit(t) {
        r := Digit();
      } else {
        r := Err(ParseError(UnknownSymbol, t));
      }
    }

    method Assign() returns (r: Outcome<ParseError>)
      requires Valid()
      modifies this
      ensures Valid() && old(pos) <= pos && old(out) <= out
      ensures match ParseAssign(input, old(pos))
        case Ok((s, next)) =>
          var g := GenStmt(s, old(regnum));
          r == Pass && pos == next && regnum == g.next && out == old(out) + g.code
        case Err(err) => r == Fail(err)
    {
      if !IsIdentifier(Token()) {
        return Fail(ParseError(ExpectedIdentifier, Token()));
      }
      var id := Token();
      NextToken();
      if Token() != '=' {
        return Fail(ParseError(ExpectedEquals, Token()));
      }
      NextToken();
      var resultReg := Expr();
      if resultReg.Err? {
        return Fail(resultReg.error);
      }
      CodeGen(STORE, id as int, resultReg.value, EMPTY_FIELD);
      r := Pass;
    }

    method Swap() returns (r: Outcome<ParseError>)
      requires Valid()
      modifies this
      ensures Valid() && old(pos) <= pos && old(out) <= out
      ensures match ParseSwap(input, old(pos))
        case Ok((s, next)) =>
          var g := GenStmt(s, old(regnum));
          r == Pass && pos == next && regnum == g.next && out == old(out) + g.code
        case Err(err) => r == Fail(err)
    {
      if Token() != '%' {
        return Fail(ParseError(ExpectedPercent, Token()));
      }
      NextToken();
      if !IsIdentifier(Token()) {
        return Fail(ParseError(ExpectedIdentifier, Token()));
      }
      var firstVar := Token();
      NextToken();
      if !IsIdentifier(Token()) {
        return Fail(ParseError(ExpectedIdentifier, Token()));
      }
      var secondVar := Token();
      NextToken();
      var firstReg := NextRegister();
      var secondReg := NextRegister();
      CodeGen(LOAD, firstReg, firstVar as int, EMPTY_FIELD);
      CodeGen(LOAD, secondReg, secondVar as int, EMPTY_FIELD);
      CodeGen(STORE, firstVar as int, secondReg, EMPTY_FIELD);
      CodeGen(STORE, secondVar as int, firstReg, EMPTY_FIELD);
      r := Pass;
    }

    method Read() returns (r: Outcome<ParseError>)
      requires Valid()
      modifies this
      ensures Valid() && old(pos) <= pos && old(out) <= out
      ensures match ParseRead(input, old(pos))
        case Ok((s, next)) =>
          var g := GenStmt(s, old(regnum));
          r == Pass && pos == next && regnum == g.next && out == old(out) + g.code
        case Err(err) => r == Fail(err)
    {
      if Token() != '&' {
        return Fail(ParseError(ExpectedAmpersand, Token()));
      }
      NextToken();
      if !IsIdentifier(Token()) {
        return Fail(ParseError(ExpectedIdentifier, Token()));
      }
      CodeGen(READ, Token() as int, EMPTY_FIELD, EMPTY_FIELD);
      NextToken();
      r := Pass;
    }

    method Print() returns (r: Outcome<ParseError>)
      requires Valid()
      modifies this
      ensures Valid() && old(pos) <= pos && old(out) <= out
      ensures match ParsePrint(input, old(pos))
        case Ok((s, next)) =>
          var g := GenStmt(s, old(regnum));
          r == Pass && pos == next && regnum == g.next && out == old(out) + g.code
        case Err(err) => r == Fail(err)
    {
      if Token() != '#' {
        return Fail(ParseError(ExpectedHash, Token()));
      }
      NextToken();
      if !IsIdentifier(Token()) {
        return Fail(ParseError(ExpectedIdentifier, Token()));
      }
      CodeGen(WRITE, Token() as int, EMPTY_FIELD, EMPTY_FIELD);
      NextToken();
      r := Pass;
    }

    method Stmt() returns (r: Outcome<ParseError>)
      requires Valid()
      modifies this
      ensures Valid() && old(pos) <= pos && old(out) <= out
      ensures match ParseStmt(input, old(pos))
        case Ok((s, next)) =>
          var g := GenStmt(s, old(regnum));
          r == Pass && pos == next && regnum == g.next && out == old(out) + g.code
        case Err(err) => r == Fail(err)
    {
      var t := Token();
      if IsIdentifier(t) {
        r := Assign();
      } else if t == '%' {
        r := Swap();
      } else if t == '&' {
        r := Read();
      } else if t == '#' {
        r := Print();
      } else {
        r := Fail(ParseError(UnknownSymbol, t));
      }
    }

    method MoreStmts() returns (r: Outcome<ParseError>)
      requires Valid()
      modifies this
      ensures Valid() && old(pos) <= pos && old(out) <= out
      ensures match ParseMoreStmts(input, old(pos))
        case Ok((ss, next)) =>
          var g := GenList(ss, old(regnum));
          r == Pass && pos == next && regnum == g.next && out == old(out) + g.code
        case Err(err) => r == Fail(err)
      decreases |input| - pos, 0
    {
      if Token() == '.' {
        return Pass;
      }
      if Token() != ';' {
        return Fail(ParseError(ExpectedSemicolon, Token()));
      }
      NextToken();
      r := StmtList();
    }

    method StmtList() returns (r: Outcome<ParseError>)
      requires Valid()
      modifies this
      ensures Valid() && old(pos) <= pos && old(out) <= out
      ensures match ParseStmtList(input, old(pos))
        case Ok((ss, next)) =>
          var g := GenList(ss, old(regnum));
          r == Pass && pos == next && regnum == g.next && out == old(out) + g.code
        case Err(err) => r == Fail(err)
      decreases |input| - pos, 1
    {
      ghost var p0, reg0, out0 := pos, regnum, out;
      r := Stmt();
      if r.Fail? {
        return;
      }
      ghost var (s, q) := ParseStmt(input, p0).value;
      ghost var reg1, out1 := regnum, out;
      r := MoreStmts();
      if r.Pass? {
        ghost var (rest, _) := ParseMoreStmts(input, q).value;
        GenListPrepend(s, rest, reg0);
        assert out == out0 + (GenStmt(s, reg0).code + GenList(rest, reg1).code);
      }
    }

    method Program() returns (r: Outcome<ParseError>)
      requires Valid()
      modifies this
      ensures Valid() && old(out) <= out
      ensures match ParseProgram(input, old(pos))
        case Ok(ss) =>
          var g := GenList(ss, old(regnum));
          r == Pass && Token() == '.' && regnum == g.next && out == old(out) + g.code
        case Err(err) => r == Fail(err)
    {
      r := StmtList();
      if r.Fail? {
        return;
      }
      if Token() != '.' {
        return Fail(ParseError(ProgramError, Token()));
      }
    }
  }

  /**
   * The compilation main() performs once the source is in memory: parse from
   * the first character with registers starting at 1. On success the output
   * is the code of the parsed program; on failure the error of the parser.
   */
  method Compile(input: seq<char>) returns (r: Result<seq<Instruction>, ParseError>)
    ensures match ParseProgram(input, 0)
      case Ok(ss) => r == Ok(GenProgram(ss))
      case Err(err) => r == Err(err)
    ensures r.Ok? ==> StrictlyIncreasing(Dests(r.value))
  {
    var parser := new Parser(input);
    var outcome := parser.Program();
    if outcome.Fail? {
      return Err(outcome.error);
    }
    ghost var code := GenProgram(ParseProgram(input, 0).value);
    assert parser.out == [] + code == code;
    r := Ok(parser.out);
    ProgramRegisters(ParseProgram(input, 0).value);
  }

  // The sample program `&a;&b;c=+3*ab;d=+c1;#d.` of the grammar comment,
  // statement by statement, with the code each statement compiles to.
  const ReadA: Stmt := Read('a')
  const ReadB: Stmt := Read('b')
  const AssignC: Stmt := Assign('c', Binary(Plus, Const(3), Binary(Times, Var('a'), Var('b'))))
  const AssignD: Stmt := Assign('d', Binary(Plus, Var('c'), Const(1)))
  const PrintD: Stmt := Print('d')

  const ReadACode: seq<Instruction> := [Instruction(READ, 'a' as int, EMPTY_FIELD, EMPTY_FIELD)]
  const ReadBCode: seq<Instruction> := [Instruction(READ, 'b' as int, EMPTY_FIELD, EMPTY_FIELD)]
  const AssignCCode: seq<Instruction> :=
    [Instruction(LOADI, 1, 3, EMPTY_FIELD),
     Instruction(LOAD, 2, 'a' as int, EMPTY_FIELD),
     Instruction(LOAD, 3, 'b' as int, EMPTY_FIELD),
     Instruction(MUL, 4, 2, 3),
     Instruction(ADD, 5, 1, 4),
     Instruction(STORE, 'c' as int, 5, EMPTY_FIELD)]
  const AssignDCode: seq<Instruction> :=
    [Instruction(LOAD, 6, 'c' as int, EMPTY_FIELD),
     Instruction(LOADI, 7, 1, EMPTY_FIELD),
     Instruction(ADD, 8, 6, 7),
     Instruction(STORE, 'd' as int, 8, EMPTY_FIELD)]
  const PrintDCode: seq<Instruction> := [Instruction(WRITE, 'd' as int, EMPTY_FIELD, EMPTY_FIELD)]

  function SampleTree(): StmtList {
    [ReadA] + ([ReadB] + ([AssignC] + ([AssignD] + [PrintD])))
  }

  function SampleCode(): seq<Instruction> {
    ReadACode + (ReadBCode + (AssignCCode + (AssignDCode + PrintDCode)))
  }

  /** The text `&a;&b;c=+3*ab;d=+c1;#d.`, written statement by statement. */
  function SampleInput(): seq<char> {
    "&a" + ";" + ("&b" + ";" + ("c=+3*ab" + ";" + ("d=+c1" + ";" + "#d"))) + "."
  }

  lemma SampleText()
    ensures ProgramText(SampleTree()) == SampleInput()
  {
    assert StmtText(ReadA) == "&a" && StmtText(ReadB) == "&b" && StmtText(PrintD) == "#d";
    assert StmtText(AssignC) == "c=+3*ab" && StmtText(AssignD) == "d=+c1";
    ListTextCons(AssignD, [PrintD]);
    ListTextCons(AssignC, [AssignD] + [PrintD]);
    ListTextCons(ReadB, [AssignC] + ([AssignD] + [PrintD]));
    ListTextCons(ReadA, [ReadB] + ([AssignC] + ([AssignD] + [PrintD])));
  }

  lemma SampleParses()
    ensures ParseProgram(SampleInput(), 0) == Ok(SampleTree())
  {
    SampleText();
    ParseProgramExact(SampleInput(), 0, SampleTree());
  }

  lemma SampleLastTwoCode()
    ensures GenList([AssignD] + [PrintD], 6) == StmtCode(AssignDCode + PrintDCode, 9)
  {
    GenListPrepend(PrintD, [], 9);
    assert [PrintD] + [] == [PrintD] && PrintDCode + [] == PrintDCode;
    GenListPrepend(AssignD, [PrintD], 6);
    assert GenStmt(AssignD, 6) == StmtCode(AssignDCode, 9);
  }

  lemma SampleLastThreeCode()
    ensures GenList([AssignC] + ([AssignD] + [PrintD]), 1) == StmtCode(AssignCCode + (AssignDCode + PrintDCode), 9)
  {
    SampleLastTwoCode();
    GenListPrepend(AssignC, [AssignD] + [PrintD], 1);
    assert GenStmt(AssignC, 1) == StmtCode(AssignCCode, 6);
  }

  /** Eight registers and thirteen instructions. */
  lemma SampleCompiles()
    ensures GenProgram(SampleTree()) == SampleCode()
  {
    SampleLastThreeCode();
    GenListPrepend(ReadB, [AssignC] + ([AssignD] + [PrintD]), 1);
    GenListPrepend(ReadA, [ReadB] + ([AssignC] + ([AssignD] + [PrintD])), 1);
  }

  /** No window of the sample's code is folded (`+c1` adds 1, which is no
      identity), so the optimizer returns it unchanged. */
  lemma SampleNotFolded()
    ensures Peephole.SimplifyFrom(SampleCode(), 0) == SampleCode()
  {
    var code := SampleCode();
    forall k | 0 <= k < |code| - 2
      ensures Peephole.Decide(code[k], code[k + 1], code[k + 2]).None?
    {
    }
    Peephole.NoFoldLeavesListAlone(code, 0);
  }

  /** `b=*1+a0.`, whose code the optimizer does not leave in normal form. */
  const SecondPassTree: StmtList := [Assign('b', Binary(Times, Const(1), Binary(Plus, Var('a'), Const(0))))]

  lemma SecondPassParses()
    ensures ParseProgram("b=*1+a0.", 0) == Ok(SecondPassTree)
  {
    assert ProgramText(SecondPassTree) == "b=*1+a0.";
    ParseProgramExact("b=*1+a0.", 0, SecondPassTree);
  }

  /** The pass is not idempotent on compiler output: `b=*1+a0.` parses to
      `SecondPassTree`, and a second run over its code folds again. */
  lemma SecondPassSample()
    ensures ParseProgram("b=*1+a0.", 0) == Ok(SecondPassTree)
    ensures var once := Peephole.SimplifyFrom(GenProgram(SecondPassTree), 0);
      Peephole.SimplifyFrom(once, 0) != once
  {
    assert GenProgram(SecondPassTree)
      == [Peephole.LoadConst(1, 1), Peephole.LoadVar(2, 'a' as int), Peephole.LoadConst(3, 0),
          Instruction(ADD, 4, 2, 3), Instruction(MUL, 5, 1, 4), Instruction(STORE, 'b' as int, 5, EMPTY_FIELD)];
    Peephole.SecondPassCanFold();
    SecondPassParses();
  }
}
