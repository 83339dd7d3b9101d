/**
 * The tinyL source language: its abstract syntax, the concrete text of each
 * tree, and the LL(1) recursive-descent recognizer of Compiler.c written as
 * pure functions (one per grammar rule, with the same branches and the same
 * error conditions). Every token is a single character.
 *
 *   PROGRAM   ::= STMTLIST .
 *   STMTLIST  ::= STMT MORESTMTS
 *   MORESTMTS ::= ; STMTLIST | epsilon
 *   STMT      ::= ASSIGN | SWAP | READ | PRINT
 *   ASSIGN    ::= VARIABLE = EXPR
 *   SWAP      ::= % VARIABLE VARIABLE
 *   READ      ::= & VARIABLE
 *   PRINT     ::= # VARIABLE
 *   EXPR      ::= + EXPR EXPR | - EXPR EXPR | * EXPR EXPR | VARIABLE | DIGIT
 */
module Syntax {
  import opened Results

  type VarName = c: char | 'a' <= c <= 'd' witness 'a'
  type DigitValue = d: int | 0 <= d <= 9

  datatype BinOp = Plus | Minus | Times

  datatype Expr =
    | Binary(op: BinOp, left: Expr, right: Expr)
    | Var(name: VarName)
    | Const(value: DigitValue)

  datatype Stmt =
    | Assign(target: VarName, value: Expr)
    | Swap(first: VarName, second: VarName)
    | Read(dest: VarName)
    | Print(source: VarName)

  /** A statement list holds at least one statement. */
  type StmtList = ss: seq<Stmt> | |ss| > 0 witness [Read('a')]

  /** The diagnostics of Compiler.c, each with the character it stopped at. */
  datatype ErrorKind =
    | ExpectedDigit        // digit()
    | ExpectedIdentifier   // variable(), assign(), swap(), read(), print()
    | UnknownSymbol        // expr(), stmt()
    | ExpectedEquals       // assign()
    | ExpectedPercent      // swap()
    | ExpectedAmpersand    // read()
    | ExpectedHash         // print()
    | ExpectedSemicolon    // morestmts()
    | ProgramError         // program()

  datatype ParseError = ParseError(kind: ErrorKind, symbol: char)

  // -------------------------------------------------------------------------
  // Character classes
  // -------------------------------------------------------------------------

  predicate IsDigit(c: char) {
    '0' <= c <= '9'
  }

  predicate IsIdentifier(c: char) {
    'a' <= c <= 'd'
  }

  function DigitChar(d: DigitValue): char {
    ('0' as int + d) as char
  }

  /** The value of a digit character; 0 (after a warning) for any other. */
  function ToDigit(c: char): (d: DigitValue)
    ensures IsDigit(c) ==> DigitChar(d) == c
    ensures !IsDigit(c) ==> d == 0
  {
    if IsDigit(c) then c as int - '0' as int else 0
  }

  lemma DigitCharRoundTrip(d: DigitValue)
    ensures IsDigit(DigitChar(d)) && ToDigit(DigitChar(d)) == d
  {
  }

  /** The character under the cursor; the buffer reads '\0' past its end. */
  function TokenAt(input: seq<char>, pos: nat): (t: char)
    ensures t != '\0' ==> pos < |input|
  {
    if pos < |input| then input[pos] else '\0'
  }

  // -------------------------------------------------------------------------
  // Concrete text
  // -------------------------------------------------------------------------

  function OpChar(op: BinOp): char {
    match op
    case Plus => '+'
    case Minus => '-'
    case Times => '*'
  }

  function ExprText(e: Expr): seq<char> {
    match e
    case Binary(op, l, r) => [OpChar(op)] + ExprText(l) + ExprText(r)
    case Var(v) => [v]
    case Const(d) => [DigitChar(d)]
  }

  function StmtText(s: Stmt): seq<char> {
    match s
    case Assign(v, e) => [v, '='] + ExprText(e)
    case Swap(x, y) => ['%', x, y]
    case Read(v) => ['&', v]
    case Print(v) => ['#', v]
  }

  /** Statements separated by ';'. */
  function ListText(ss: StmtList): seq<char>
    decreases |ss|
  {
    if |ss| == 1 then StmtText(ss[0]) else StmtText(ss[0]) + [';'] + ListText(ss[1..])
  }

  function ProgramText(ss: StmtList): seq<char> {
    ListText(ss) + ['.']
  }

  // -------------------------------------------------------------------------
  // The recognizer: each rule starts at `p` and returns the tree and the
  // position of the first character after it
  // -------------------------------------------------------------------------

  function ParseExpr(input: seq<char>, p: nat): (r: Result<(Expr, nat), ParseError>)
    requires p <= |input|
    ensures r.Ok? ==> p < r.value.1 <= |input|
    decreases |input| - p
  {
    var t := TokenAt(input, p);
    if t == '+' || t == '-' || t == '*' then
      var op := if t == '+' then Plus else if t == '-' then Minus else Times;
      match ParseExpr(input, p + 1)
      case Err(err) => Err(err)
      case Ok((left, p1)) =>
        match ParseExpr(input, p1)
        case Err(err) => Err(err)
        case Ok((right, p2)) => Ok((Binary(op, left, right), p2))
    else if IsIdentifier(t) then Ok((Var(t), p + 1))
    else if IsDigit(t) then Ok((Const(ToDigit(t)), p + 1))
    else Err(ParseError(UnknownSymbol, t))
  }

  function ParseAssign(input: seq<char>, p: nat): (r: Result<(Stmt, nat), ParseError>)
    requires p <= |input|
    ensures r.Ok? ==> p < r.value.1 <= |input|
  {
    var t := TokenAt(input, p);
    if !IsIdentifier(t) then Err(ParseError(ExpectedIdentifier, t))
    else if TokenAt(input, p + 1) != '=' then Err(ParseError(ExpectedEquals, TokenAt(input, p + 1)))
    else match ParseExpr(input, p + 2)
      case Err(err) => Err(err)
      case Ok((e, q)) => Ok((Assign(t, e), q))
  }

  function ParseSwap(input: seq<char>, p: nat): (r: Result<(Stmt, nat), ParseError>)
    requires p <= |input|
    ensures r.Ok? ==> r.value.1 == p + 3 <= |input|
  {
    if TokenAt(input, p) != '%' then Err(ParseError(ExpectedPercent, TokenAt(input, p)))
    else if !IsIdentifier(TokenAt(input, p + 1)) then Err(ParseError(ExpectedIdentifier, TokenAt(input, p + 1)))
    else if !IsIdentifier(TokenAt(input, p + 2)) then Err(ParseError(ExpectedIdentifier, TokenAt(input, p + 2)))
    else Ok((Swap(TokenAt(input, p + 1), TokenAt(input, p + 2)), p + 3))
  }

  function ParseRead(input: seq<char>, p: nat): (r: Result<(Stmt, nat), ParseError>)
    requires p <= |input|
    ensures r.Ok? ==> r.value.1 == p + 2 <= |input|
  {
    if TokenAt(input, p) != '&' then Err(ParseError(ExpectedAmpersand, TokenAt(input, p)))
    else if !IsIdentifier(TokenAt(input, p + 1)) then Err(ParseError(ExpectedIdentifier, TokenAt(input, p + 1)))
    else Ok((Read(TokenAt(input, p + 1)), p + 2))
  }

  function ParsePrint(input: seq<char>, p: nat): (r: Result<(Stmt, nat), ParseError>)
    requires p <= |input|
    ensures r.Ok? ==> r.value.1 == p + 2 <= |input|
  {
    if TokenAt(input, p) != '#' then Err(ParseError(ExpectedHash, TokenAt(input, p)))
    else if !IsIdentifier(TokenAt(input, p + 1)) then Err(ParseError(ExpectedIdentifier, TokenAt(input, p + 1)))
    else Ok((Print(TokenAt(input, p + 1)), p + 2))
  }

  function ParseStmt(input: seq<char>, p: nat): (r: Result<(Stmt, nat), ParseError>)
    requires p <= |input|
    ensures r.Ok? ==> p < r.value.1 <= |input|
  {
    var t := TokenAt(input, p);
    if IsIdentifier(t) then ParseAssign(input, p)
    else if t == '%' then ParseSwap(input, p)
    else if t == '&' then ParseRead(input, p)
    else if t == '#' then ParsePrint(input, p)
    else Err(ParseError(UnknownSymbol, t))
  }

  /** A statement list ends only where the next character is '.'. */
  function ParseStmtList(input: seq<char>, p: nat): (r: Result<(StmtList, nat), ParseError>)
    requires p <= |input|
    ensures r.Ok? ==> p < r.value.1 <= |input| && TokenAt(input, r.value.1) == '.'
    decreases |input| - p, 1
  {
    match ParseStmt(input, p)
    case Err(err) => Err(err)
    case Ok((s, q)) =>
      match ParseMoreStmts(input, q)
      case Err(err) => Err(err)
      case Ok((rest, q')) => Ok(([s] + rest, q'))
  }

  function ParseMoreStmts(input: seq<char>, p: nat): (r: Result<(seq<Stmt>, nat), ParseError>)
    requires p <= |input|
    ensures r.Ok? ==> p <= r.value.1 <= |input| && TokenAt(input, r.value.1) == '.'
    ensures r.Ok? && r.value.0 == [] ==> r.value.1 == p
    decreases |input| - p, 0
  {
    var t := TokenAt(input, p);
    if t == '.' then Ok(([], p))
    else if t != ';' then Err(ParseError(ExpectedSemicolon, t))
    else match ParseStmtList(input, p + 1)
      case Err(err) => Err(err)
      case Ok((ss, q)) => Ok((ss, q))
  }

  /** Succeeds when a statement list followed by '.' starts at `p`;
      whatever follows the '.' is not read. */
  function ParseProgram(input: seq<char>, p: nat): Result<StmtList, ParseError>
    requires p <= |input|
  {
    match ParseStmtList(input, p)
    case Err(err) => Err(err)
    case Ok((ss, q)) =>
      if TokenAt(input, q) != '.' then Err(ParseError(ProgramError, TokenAt(input, q)))
      else Ok(ss)
  }

  // -------------------------------------------------------------------------
  // The recognizer accepts exactly the texts of trees (soundness and
  // completeness), so parsing and printing are inverse
  // -------------------------------------------------------------------------

  /** `t` occurs in `input` starting at `p`. */
  ghost predicate At(input: seq<char>, p: nat, t: seq<char>) {
    p + |t| <= |input| && input[p..p + |t|] == t
  }

  lemma AtToken(input: seq<char>, p: nat, c: char)
    requires c != '\0' && TokenAt(input, p) == c
    ensures At(input, p, [c])
  {
    assert input[p..p + 1] == [c];
  }

  lemma AtSplit(input: seq<char>, p: nat, a: seq<char>, q: nat, b: seq<char>)
    requires q == p + |a| && At(input, p, a + b)
    ensures At(input, p, a) && At(input, q, b)
  {
    assert input[p..q] == (a + b)[..|a|];
    assert input[q..q + |b|] == (a + b)[|a|..];
  }

  lemma AtJoin(input: seq<char>, p: nat, a: seq<char>, q: nat, b: seq<char>)
    requires q == p + |a| && At(input, p, a) && At(input, q, b)
    ensures At(input, p, a + b)
  {
    assert input[p..q + |b|] == input[p..q] + input[q..q + |b|];
  }

  lemma {:induction false} ParseExprSound(input: seq<char>, p: nat, e: Expr, q: nat)
    requires p <= |input| && ParseExpr(input, p) == Ok((e, q))
    ensures q == p + |ExprText(e)| && At(input, p, ExprText(e))
    decreases |input| - p
  {
    var t := TokenAt(input, p);
    if t == '+' || t == '-' || t == '*' {
      var op := if t == '+' then Plus else if t == '-' then Minus else Times;
      assert OpChar(op) == t;
      var (left, p1) := ParseExpr(input, p + 1).value;
      var (right, p2) := ParseExpr(input, p1).value;
      assert e == Binary(op, left, right) && q == p2;
      assert ExprText(e) == [t] + ExprText(left) + ExprText(right);
      ParseExprSound(input, p + 1, left, p1);
      ParseExprSound(input, p1, right, p2);
      assert At(input, p, [t]);
      AtJoin(input, p, [t], p + 1, ExprText(left));
      AtJoin(input, p, [t] + ExprText(left), p1, ExprText(right));
    } else {
      assert At(input, p, [t]);
    }
  }

  /** `expr` on an operator character followed by two parsed operands. */
  lemma ParseOperation(input: seq<char>, p: nat, op: BinOp, l: Expr, q: nat, r: Expr, q': nat)
    requires p < |input| && input[p] == OpChar(op)
    requires q <= |input| && ParseExpr(input, p + 1) == Ok((l, q)) && ParseExpr(input, q) == Ok((r, q'))
    ensures ParseExpr(input, p) == Ok((Binary(op, l, r), q'))
  {
    match op
    case Plus =>
    case Minus =>
    case Times =>
  }

  lemma {:induction false} ParseExprComplete(e: Expr, input: seq<char>, p: nat)
    requires At(input, p, ExprText(e))
    ensures ParseExpr(input, p) == Ok((e, p + |ExprText(e)|))
  {
    match e
    case Binary(op, l, r) =>
      var q := p + 1 + |ExprText(l)|;
      assert ExprText(e) == ([OpChar(op)] + ExprText(l)) + ExprText(r);
      AtSplit(input, p, [OpChar(op)] + ExprText(l), q, ExprText(r));
      AtSplit(input, p, [OpChar(op)], p + 1, ExprText(l));
      assert input[p] == [OpChar(op)][0];
      ParseExprComplete(l, input, p + 1);
      ParseExprComplete(r, input, q);
      ParseOperation(input, p, op, l, q, r, q + |ExprText(r)|);
    case Var(v) =>
      assert input[p] == ExprText(e)[0];
    case Const(d) =>
      assert input[p] == ExprText(e)[0];
      DigitCharRoundTrip(d);
  }

  lemma ParseStmtSound(input: seq<char>, p: nat, s: Stmt, q: nat)
    requires p <= |input| && ParseStmt(input, p) == Ok((s, q))
    ensures q == p + |StmtText(s)| && At(input, p, StmtText(s))
  {
    if s.Assign? {
      ParseExprSound(input, p + 2, s.value, q);
      assert At(input, p, [s.target, '=']);
      AtJoin(input, p, [s.target, '='], p + 2, ExprText(s.value));
    } else {
      assert input[p..q] == StmtText(s);
    }
  }

  lemma ParseStmtComplete(s: Stmt, input: seq<char>, p: nat)
    requires At(input, p, StmtText(s))
    ensures ParseStmt(input, p) == Ok((s, p + |StmtText(s)|))
  {
    assert input[p] == StmtText(s)[0];
    assert input[p + 1] == StmtText(s)[1];
    match s
    case Assign(v, e) =>
      AtSplit(input, p, [v, '='], p + 2, ExprText(e));
      ParseExprComplete(e, input, p + 2);
    case Swap(x, y) =>
      assert input[p + 2] == StmtText(s)[2];
    case Read(v) =>
    case Print(v) =>
  }

  /** A statement followed by a non-empty list prints with a ';' between. */
  lemma ListTextCons(s: Stmt, rest: StmtList)
    ensures ListText([s] + rest) == StmtText(s) + [';'] + ListText(rest)
  {
    assert ([s] + rest)[0] == s && ([s] + rest)[1..] == rest;
  }

  /** One step of `stmtlist`: a statement, then either the closing '.' or a
      ';' and the rest of the list. */
  lemma StmtListStep(input: seq<char>, p: nat, ss: StmtList, q': nat)
    requires p <= |input| && ParseStmtList(input, p) == Ok((ss, q'))
    ensures ParseStmt(input, p).Ok?
    ensures var (s, q) := ParseStmt(input, p).value;
      ss[0] == s
      && (|ss| == 1 ==> q' == q && TokenAt(input, q) == '.')
      && (|ss| > 1 ==> TokenAt(input, q) == ';' && q + 1 <= |input| && ParseStmtList(input, q + 1) == Ok((ss[1..], q')))
  {
    var (s, q) := ParseStmt(input, p).value;
    var (rest, _) := ParseMoreStmts(input, q).value;
    assert ss == [s] + rest;
    assert ss[1..] == rest;
  }

  /** The text of the last statement of a list, followed by '.'. */
  lemma AtLast(input: seq<char>, p: nat, s: Stmt)
    requires At(input, p, StmtText(s)) && At(input, p + |StmtText(s)|, ['.'])
    ensures At(input, p, ListText([s]) + ['.'])
  {
    AtJoin(input, p, StmtText(s), p + |StmtText(s)|, ['.']);
  }

  /** The text of a statement, ';' and a list, followed by '.'. */
  lemma AtCons(input: seq<char>, p: nat, s: Stmt, rest: StmtList)
    requires At(input, p, StmtText(s)) && At(input, p + |StmtText(s)|, [';'])
    requires At(input, p + |StmtText(s)| + 1, ListText(rest) + ['.'])
    ensures At(input, p, ListText([s] + rest) + ['.'])
    ensures |ListText([s] + rest)| == |StmtText(s)| + 1 + |ListText(rest)|
  {
    var ss := [s] + rest;
    ListTextCons(s, rest);
    AtJoin(input, p, StmtText(s), p + |StmtText(s)|, [';']);
    AtJoin(input, p, StmtText(s) + [';'], p + |StmtText(s)| + 1, ListText(rest) + ['.']);
    assert StmtText(s) + [';'] + (ListText(rest) + ['.']) == ListText(ss) + ['.'];
  }

  lemma {:induction false} ParseStmtListSound(input: seq<char>, p: nat, ss: StmtList, q': nat)
    requires p <= |input| && ParseStmtList(input, p) == Ok((ss, q'))
    ensures q' == p + |ListText(ss)| && At(input, p, ListText(ss) + ['.'])
    decreases |input| - p
  {
    StmtListStep(input, p, ss, q');
    var (s, q) := ParseStmt(input, p).value;
    ParseStmtSound(input, p, s, q);
    if |ss| == 1 {
      assert ss == [s];
      AtToken(input, q, '.');
      AtLast(input, p, s);
    } else {
      var rest := ss[1..];
      ParseStmtListSound(input, q + 1, rest, q');
      AtToken(input, q, ';');
      assert ss == [s] + rest;
      AtCons(input, p, s, rest);
    }
  }

  /** The text of a list of two or more statements, followed by '.'. */
  lemma AtConsSplit(input: seq<char>, p: nat, s: Stmt, rest: StmtList)
    requires At(input, p, ListText([s] + rest) + ['.'])
    ensures At(input, p, StmtText(s) + [';'])
    ensures At(input, p + |StmtText(s)| + 1, ListText(rest) + ['.'])
    ensures |ListText([s] + rest)| == |StmtText(s)| + 1 + |ListText(rest)|
  {
    var ss := [s] + rest;
    ListTextCons(s, rest);
    assert ListText(ss) + ['.'] == (StmtText(s) + [';']) + (ListText(rest) + ['.']);
    AtSplit(input, p, StmtText(s) + [';'], p + |StmtText(s)| + 1, ListText(rest) + ['.']);
  }

  /** One statement followed by '.' is a whole list. */
  lemma ParseLastStmt(s: Stmt, input: seq<char>, p: nat)
    requires At(input, p, StmtText(s) + ['.'])
    ensures ParseStmtList(input, p) == Ok(([s], p + |StmtText(s)|))
  {
    var q := p + |StmtText(s)|;
    AtSplit(input, p, StmtText(s), q, ['.']);
    ParseStmtComplete(s, input, p);
    assert input[q] == ['.'][0];
    assert [s] + [] == [s];
  }

  /** A statement, a ';' and a list make a longer list. */
  lemma ParseConsStmt(s: Stmt, rest: StmtList, input: seq<char>, p: nat, q: nat, q': nat)
    requires q == p + |StmtText(s)| + 1 && q <= |input|
    requires At(input, p, StmtText(s) + [';'])
    requires ParseStmtList(input, q) == Ok((rest, q'))
    ensures ParseStmtList(input, p) == Ok(([s] + rest, q'))
  {
    AtSplit(input, p, StmtText(s), q - 1, [';']);
    ParseStmtComplete(s, input, p);
    assert input[q - 1] == [';'][0];
    assert ParseMoreStmts(input, q - 1) == Ok((rest, q'));
  }

  lemma {:induction false} ParseStmtListComplete(ss: StmtList, input: seq<char>, p: nat)
    requires At(input, p, ListText(ss) + ['.'])
    ensures ParseStmtList(input, p) == Ok((ss, p + |ListText(ss)|))
    decreases |ss|
  {
    var s := ss[0];
    if |ss| == 1 {
      assert ss == [s];
      ParseLastStmt(s, input, p);
    } else {
      var rest := ss[1..];
      assert ss == [s] + rest;
      var q := p + |StmtText(s)| + 1;
      AtConsSplit(input, p, s, rest);
      ParseStmtListComplete(rest, input, q);
      ParseConsStmt(s, rest, input, p, q, q + |ListText(rest)|);
    }
  }

  /** A program parses exactly when its text, ending in '.', starts at `p`. */
  lemma ParseProgramExact(input: seq<char>, p: nat, ss: StmtList)
    requires p <= |input|
    ensures ParseProgram(input, p) == Ok(ss) <==> At(input, p, ProgramText(ss))
  {
    if ParseProgram(input, p) == Ok(ss) {
      ParseStmtListSound(input, p, ss, ParseStmtList(input, p).value.1);
    }
    if At(input, p, ProgramText(ss)) {
      ParseStmtListComplete(ss, input, p);
    }
  }

  /** Any input the recognizer accepts starts with the text of some program. */
  lemma ParseProgramSound(input: seq<char>, p: nat)
    requires p <= |input| && ParseProgram(input, p).Ok?
    ensures At(input, p, ProgramText(ParseProgram(input, p).value))
  {
    ParseProgramExact(input, p, ParseProgram(input, p).value);
  }

  /** The final `token != '.'` test of program() never fails: a program
      succeeds or fails exactly as its statement list does. */
  lemma ProgramIsStmtList(input: seq<char>, p: nat)
    requires p <= |input|
    ensures ParseProgram(input, p) == match ParseStmtList(input, p)
      case Err(err) => Err(err)
      case Ok((ss, _)) => Ok(ss)
  {
  }
}
