# tinyL compiler and peephole optimizer, modelled in Dafny

This project models the two passes of the tinyL toolchain and proves properties of them.

- **The compiler front end (Compiler.c).** It is an LL(1) recursive-descent parser for tinyL. tinyL has single-character tokens: four variables `a`..`d`, digit literals, assignment, swap `%xy`, read `&x`, print `#x` and prefix `+ - *` expressions. The parser emits three-address instructions `{opcode, field1, field2, field3}` as it recognizes each rule, and draws virtual registers from a counter that starts at 1 and only goes up. Unused fields hold `EMPTY_FIELD = 0xFFFFF`.
- **The algebraic-simplification pass (Optimizer.c).** It slides a three-instruction window over a doubly-linked instruction list. `scan_pattern` classifies each window. The driver then folds `id-id`, `id*0`, `0*id`, `id+0`, `0+id`, `id*1`, `1*id` and `id-0` into a single LOADI or LOAD. Each fold deletes the two preceding nodes in place.

Files:

- `results.dfy` holds Option, Result and Outcome.
- `ir.dfy` (module `IR`) holds the opcodes, instructions and destination registers. It also has a small reference interpreter (`Machine`, `Step`, `Exec`) whose rules give each opcode the meaning of its name: LOADI loads a constant, LOAD and STORE move a variable, ADD/SUB/MUL compute, READ and WRITE do input and output.
- `syntax.dfy` (module `Syntax`) holds the tinyL syntax tree and the text of each tree. It also holds the recognizer as pure functions, one per grammar rule, with the same branches and error conditions as the C procedures.
- `codegen.dfy` (module `CodeGen`) says what each rule emits, as a function of the tree and the first free register.
- `compiler.dfy` (module `Compiler`) is the imperative parser. Class `Parser` holds the C globals as fields: `input` with a cursor `pos` for `buffer` (reading past the end gives `'\0'`), `regnum`, and `out` for the file `CodeGen` writes. It has one method per C procedure. On success, each grammar method is proved to leave `pos`, `regnum` and `out` exactly as the recognizer and code generator predict. On failure, each returns the recognizer's error and keeps the earlier output as a prefix.
- `peephole.dfy` (module `Peephole`) holds `scan_pattern`, the fold table and the driver as a function on the instruction sequence, with their lemmas.
- `instrlist.dfy` (module `InstructionStream`) is the in-place side. Class `InstructionList` holds the list as the sequence of its nodes, with `delete_instruction` and `fold_instruction` as methods. A node is named by its position, and `None` stands for NULL. The driver loop of `main` is a method proved to compute `Peephole.SimplifyFrom`.

Facts about the code that the model makes explicit:

- **The pass is not idempotent.** After a fold the driver resumes at the instruction after the folded one (Optimizer.c:156). A window that ends at the folded instruction is therefore never examined. `Peephole.SecondPassCanFold` shows a second pass folding more on the six instructions that `b=*1+a0.` compiles to, and `Compiler.SecondPassSample` proves that `b=*1+a0.` parses to a tree whose code is exactly these six instructions.
- **Print needs no register.** `print` emits `WRITE d` directly (Compiler.c:267), so the sample program `&a;&b;c=+3*ab;d=+c1;#d.` compiles to thirteen instructions over registers 1..8 (`Compiler.SampleCompiles`).
- **Local soundness needs distinct registers.** A fold can be unsound when the window's two loads write the same register. `Peephole.FoldNeedsDistinctRegisters` gives a window where they coincide and the fold changes the result. The optimizer does not check this. The compiler never emits such a window (`Peephole.CompiledWindowsHaveDistinctLoads`).
- **The final check in `program()` is dead.** Its `token != '.'` test (Compiler.c:329) can never fail. A statement list only returns normally after `morestmts` has seen `'.'` (`Syntax.ProgramIsStmtList`).

## Model

| member | source | states |
|---|---|---|
| `Syntax.TokenAt` | Compiler.c:54-57 | the current token; any character other than `'\0'` lies inside the buffer; `Compiler.Parser.Token` reads it at the parser's cursor (Compiler.c:54) |
| `Syntax.IsDigit` | Compiler.c:368-373 | `is_digit`: holds for `'0'`..`'9'` only; no contract of its own, its use is stated by `ToDigit` and `ParseExprComplete` |
| `Syntax.IsIdentifier` | Compiler.c:383-388 | `is_identifier`: holds for `'a'`..`'d'` only; no contract of its own, its use is stated by the parser lemmas |
| `Syntax.ToDigit` | Compiler.c:375-381 | a digit character maps to its value 0..9, which prints back as the same character; a non-digit gives 0 |
| `Syntax.DigitCharRoundTrip` | Compiler.c:368-381 | every digit value prints as a digit character that `to_digit` maps back to it |
| `Syntax.ParseExpr` | Compiler.c:119-163 | on success `expr` consumes at least one character and stays within the input |
| `Syntax.ParseAssign` | Compiler.c:165-190 | on success `assign` consumes at least one character and stays within the input; the full consumed text is given by `ParseStmtSound` |
| `Syntax.ParseSwap` | Compiler.c:192-229 | on success `swap` consumes exactly three characters |
| `Syntax.ParseRead` | Compiler.c:231-249 | on success `read` consumes exactly two characters |
| `Syntax.ParsePrint` | Compiler.c:251-269 | on success `print` consumes exactly two characters |
| `Syntax.ParseStmt` | Compiler.c:271-295 | on success `stmt` consumes at least one character |
| `Syntax.ParseStmtList` | Compiler.c:315-321 | a statement list succeeds only where the next character is `'.'` |
| `Syntax.ParseMoreStmts` | Compiler.c:297-313 | on success `morestmts` stops in front of a `'.'`; when it yields no statements it has consumed nothing |
| `Syntax.ParseProgram` | Compiler.c:323-333 | `program`: a statement list, then the final `'.'` test; no contract of its own, its meaning is `ParseProgramExact` and `ProgramIsStmtList` |
| `Syntax.ParseExprSound` | Compiler.c:119-163 | an expression the parser accepts is exactly the text of the tree it returns, and it consumes exactly that text |
| `Syntax.ParseExprComplete` | Compiler.c:119-163 | any expression text (operators `+ - *`, `a`..`d`, `0`..`9` in prefix form) parses to its tree and ends right after it |
| `Syntax.ParseStmtSound` | Compiler.c:165-295 | an accepted statement is exactly the text of the returned statement |
| `Syntax.ParseStmtComplete` | Compiler.c:165-295 | every statement text parses back to that statement |
| `Syntax.ParseStmtListSound` | Compiler.c:297-321 | an accepted list is its statements separated by `;`, followed by `'.'` |
| `Syntax.ParseStmtListComplete` | Compiler.c:297-321 | any list text followed by `'.'` parses back to that list |
| `Syntax.ParseProgramExact` | Compiler.c:323-333 | `program` succeeds with statements `ss` if and only if the input from the cursor begins with their text and `'.'` |
| `Syntax.ParseProgramSound` | Compiler.c:323-333 | every accepted input begins with the text of a program |
| `Syntax.ProgramIsStmtList` | Compiler.c:323-333 | `program` fails or succeeds exactly as its statement list does, so ProgramError is never raised |
| `CodeGen.GenExpr` | Compiler.c:86-163 | what `expr`, `variable` and `digit` emit; no contract of its own, its meaning is `GenExprRegisters`, `BinaryDestAfterOperands` and `GenExprCorrect` |
| `CodeGen.GenStmt` | Compiler.c:165-295 | what each statement emits; no contract of its own, its meaning is `GenStmtRegisters`, `AssignCorrect`, `SwapExchanges` and `ReadPrintEffects`; swap's four instructions are `CodeGen.SwapCode` (Compiler.c:225-228) |
| `CodeGen.GenList` | Compiler.c:297-321 | the statements' code in order; no contract of its own, its meaning is `GenListRegisters`, `GenListAppend` and `Syntax.ParseStmtListSound` |
| `CodeGen.GenListAppend` | Compiler.c:297-321 | compiling two lists in sequence is compiling their concatenation: the code is the first list's followed by the second's, and the second's registers start where the first's stopped |
| `CodeGen.GenProgram` | Compiler.c:464-466 | the code of a whole program with registers from 1; no contract of its own, its meaning is `ProgramRegisters` and `Compiler.Compile` |
| `CodeGen.GenExprRegisters` | Compiler.c:86-163 | an expression's code writes the fresh registers reg, reg+1, ... once each in order, and its value lands in the last one |
| `CodeGen.BinaryDestAfterOperands` | Compiler.c:137-142 | an operator's code ends with ADD/SUB/MUL into the returned register, reading both operand registers, which were allocated earlier |
| `CodeGen.SwapRegisters` | Compiler.c:221-227 | swap's two loads write the two fresh registers reg and reg+1, and its stores write none |
| `CodeGen.GenStmtRegisters` | Compiler.c:165-269 | a statement's code writes exactly the fresh registers from the first free one up to its next free one, once each and in order |
| `CodeGen.GenListRegisters` | Compiler.c:297-321 | a statement list's destination registers are consecutive from the first free register |
| `CodeGen.ProgramRegisters` | Compiler.c:363-366 | over a whole compilation, destination registers are 1, 2, 3, ... in emission order, so they are strictly increasing and never reused |
| `CodeGen.GenExprCorrect` | Compiler.c:119-163 | running an expression's code puts the expression's value in the returned register and changes no variable, no input/output and no older register |
| `CodeGen.AssignCorrect` | Compiler.c:187-189 | running `x=e` stores the value of `e` in `x` and leaves the other variables alone |
| `CodeGen.SwapExchanges` | Compiler.c:222-228 | running `%xy` leaves x with y's old value and y with x's old value |
| `CodeGen.ReadPrintEffects` | Compiler.c:247-268 | READ takes the next input value into the variable, WRITE outputs it, and neither allocates a register |
| `Compiler.Parser.constructor` | Compiler.c:57-58 | the parse starts at the first character with register 1 and empty output |
| `Compiler.Parser.NextToken` | Compiler.c:353-361 | advances the cursor by exactly one |
| `Compiler.Parser.NextRegister` | Compiler.c:363-366 | returns the counter and increments it by exactly one |
| `Compiler.Parser.CodeGen` | Compiler.c:338-351 | appends exactly the given instruction to the output |
| `Compiler.Parser.Digit` | Compiler.c:86-100 | on a digit it emits one `LOADI reg, value, EMPTY_FIELD` (value 0..9) into a fresh register and consumes one character; otherwise it fails with ExpectedDigit and changes nothing |
| `Compiler.Parser.Variable` | Compiler.c:102-117 | on `a`..`d` it emits one `LOAD reg, var, EMPTY_FIELD` into a fresh register and consumes one character; otherwise it fails with ExpectedIdentifier and changes nothing |
| `Compiler.Parser.Expr` | Compiler.c:119-163 | its cursor, counter and output follow `ParseExpr` and `GenExpr`: left code, right code, then the operation; it returns the result register, and an unknown symbol is an error |
| `Compiler.Parser.Assign` | Compiler.c:165-190 | follows `ParseAssign`/`GenStmt`: the expression's code, then `STORE var, result`; a missing `=` fails with ExpectedEquals |
| `Compiler.Parser.Swap` | Compiler.c:192-229 | follows `ParseSwap`/`GenStmt`: exactly `LOAD r,x; LOAD r+1,y; STORE x,r+1; STORE y,r`; a missing `%` or variable is an error |
| `Compiler.Parser.Read` | Compiler.c:231-249 | follows `ParseRead`/`GenStmt`: one `READ var, EMPTY_FIELD, EMPTY_FIELD` and no register |
| `Compiler.Parser.Print` | Compiler.c:251-269 | follows `ParsePrint`/`GenStmt`: one `WRITE var, EMPTY_FIELD, EMPTY_FIELD` and no register |
| `Compiler.Parser.Stmt` | Compiler.c:271-295 | dispatches on the first character as `ParseStmt` does; any other character fails with UnknownSymbol |
| `Compiler.Parser.MoreStmts` | Compiler.c:297-313 | follows `ParseMoreStmts`: stops at `'.'`, continues after `;`, otherwise fails with ExpectedSemicolon |
| `Compiler.Parser.StmtList` | Compiler.c:315-321 | follows `ParseStmtList` and `GenList` |
| `Compiler.Parser.Program` | Compiler.c:323-333 | follows `ParseProgram`; on success the cursor is on the terminating `'.'` and the output is the program's code |
| `Compiler.Compile` | Compiler.c:464-466 | compiling from the start with register 1 gives the code of the parsed program or the parser's error; the destination registers of the output are strictly increasing |
| `Compiler.SampleText` | Compiler.c:39 | the sample tree prints as `&a;&b;c=+3*ab;d=+c1;#d.` (`SampleInput`, written statement by statement) |
| `Compiler.SampleParses` | Compiler.c:39 | the sample program `&a;&b;c=+3*ab;d=+c1;#d.` parses to its tree |
| `Compiler.SampleCompiles` | Compiler.c:39 | the sample program compiles to its thirteen instructions over registers 1..8 |
| `Compiler.SampleNotFolded` | Compiler.c:39 | the optimizer leaves the sample's code unchanged |
| `Compiler.SecondPassParses` | Compiler.c:323-333 | the text `b=*1+a0.` parses to the one-statement tree `SecondPassTree` |
| `Compiler.SecondPassSample` | Compiler.c:119-190 | `b=*1+a0.` parses to `SecondPassTree`, which compiles to `LOADI 1,1; LOAD 2,a; LOADI 3,0; ADD 4,2,3; MUL 5,1,4; STORE b,5`, and on that code a second optimizer pass changes the result of the first |
| `Peephole.ScanPattern` | Optimizer.c:54-117 | returns 0, 1 or 2; returns 0 unless instr3 is ADD/SUB/MUL; 0 leaves the out-parameters unmodified; non-zero only for two LOAD/LOADI feeding instr3's field2 and field3; 2 only for two LOADs of the same variable |
| `Peephole.ShapesRecognised` | Optimizer.c:54-117 | both directions: the result is 1 exactly for a LOAD and a LOADI feeding field2 and field3 of an ADD/SUB/MUL, and 2 exactly for two LOADs of one variable; for 1, id is the loaded variable, c the constant and var_first is 1 when the LOAD comes first and 0 otherwise |
| `Peephole.ScanPatternMeaning` | Optimizer.c:54-67 | given distinct load registers, result 1 means instr3 computes `id op c` (or `c op id` when var_first is 0) and result 2 means `id op id`, for every value of the variable |
| `Peephole.DecisionIgnoresInitialOuts` | Optimizer.c:140-143 | the fold decision does not depend on the uninitialised out-parameters |
| `Peephole.FoldDecision` | Optimizer.c:145-189 | the fold table; no contract of its own, its rows are stated by `IdentitiesFold`, `NonIdentitiesKept` and `FoldValue` |
| `Peephole.IdentitiesFold` | Optimizer.c:150-186 | for all registers and variables, the windows x-x, x*0 and 0*x fold into `LOADI r3,0` and x+0, 0+x, x*1, 1*x and x-0 into `LOAD r3,x`; 0-x is not folded |
| `Peephole.Decide` | Optimizer.c:150-186 | a fold keeps instr3's field1, sets field3 to EMPTY_FIELD and yields a LOADI or a LOAD |
| `Peephole.FoldValue` | Optimizer.c:150-186 | each fold loads the value the window computed: `x-x`, `x*0` and `0*x` give 0; `x+0`, `0+x`, `x*1`, `1*x` and `x-0` give x |
| `Peephole.FoldSound` | Optimizer.c:150-186 | every fold is an algebraic identity: the folded instruction leaves the variables, the input, the output and every register the same as the window did, except the two registers the deleted loads wrote, for every variable value (given distinct load registers) |
| `Peephole.FoldNeedsDistinctRegisters` | Optimizer.c:79-89 | when both loads write one register, `LOAD r1,a; LOADI r1,0; ADD r3,r1,r1` is folded to `LOAD r3,a` although it computes 0 |
| `Peephole.NonIdentitiesKept` | Optimizer.c:150-189 | `0 - id`, `id + id`, `id * id`, and `id * c` and `c * id` with c not 0 or 1, are not folded |
| `Peephole.RewritesLength` | Optimizer.c:39-52 | each fold shrinks the list by exactly two, so the length of a rewritten list never grows and keeps its parity |
| `Peephole.SimplifyFrom` | Optimizer.c:134-190 | the driver loop from a window start; no contract of its own, its meaning is `SimplifyFromRewrites`, `SimplifyLength`, `NoFoldLeavesListAlone` and `FoldAtHead` |
| `Peephole.Simplify` | Optimizer.c:127-190 | the whole pass: an empty list is the error NoInstructions; no contract of its own, it specifies `InstructionStream.AlgebraicSimplification` |
| `Peephole.SimplifyFromRewrites` | Optimizer.c:134-190 | the driver keeps everything before the window start; the rest splits into kept original instructions, in their order, and folds of three consecutive original instructions; a folded instruction is never re-examined |
| `Peephole.SimplifyLength` | Optimizer.c:136-190 | the pass terminates, never lengthens the list, removes instructions in pairs and never empties a non-empty list |
| `Peephole.NoFoldLeavesListAlone` | Optimizer.c:145-147 | if no window folds, the pass returns the list unchanged |
| `Peephole.FoldAtHead` | Optimizer.c:155 | a fold of the window at the head makes the folded instruction the new head |
| `Peephole.SecondPassCanFold` | Optimizer.c:156 | resuming after the folded instruction misses windows ending at it: on `LOADI 1,1; LOAD 2,a; LOADI 3,0; ADD 4,2,3; MUL 5,1,4; STORE b,5` the first pass leaves `LOADI 1,1; LOAD 4,a; MUL 5,1,4; STORE b,5` and a second pass folds that to `LOAD 5,a; STORE b,5` |
| `Peephole.CompiledWindowsHaveDistinctLoads` | Optimizer.c:79-102 | in compiler output the two loads of any folded window write different registers, so `FoldSound` covers every fold the pass makes on it |
| `InstructionStream.InstructionList.constructor` | Optimizer.c:125 | the list holds exactly the instructions read |
| `InstructionStream.InstructionList.Delete` | Optimizer.c:16-32 | on NULL nothing changes; otherwise the node leaves the list, its predecessor and successor become neighbours, and all other nodes keep their order |
| `InstructionStream.InstructionList.Fold` | Optimizer.c:39-52 | deletes exactly the (at most two) instructions immediately before the node, keeps its field1 and sets its opcode, field2 and field3; NULL is a no-op; `instr->prev` (Optimizer.c:45-46) is `InstructionStream.InstructionList.Prev` |
| `InstructionStream.SimplifyWindow` | Optimizer.c:139-189 | one turn of the loop folds the window exactly when `Decide` does, into `Decide`'s instruction, and otherwise leaves the list alone; the window then moves one instruction on |
| `InstructionStream.AlgebraicSimplification` | Optimizer.c:127-190 | the result and the new list are those of `Simplify`: an empty list is the error NoInstructions and stays empty; otherwise the loop leaves the list as `SimplifyFrom` computes it |

## Left out

- Compiler.c `main` (lines 438-474): argument checks, opening and closing files, and banners. `Compiler.Compile` stands for the parse it starts.
- `read_input` (Compiler.c:390-432): file reading, skipping leading white space, and buffer growth (including the `realloc(buffer, ...)` slip). The model takes the input as an already available `seq<char>`.
- The tracing `printf`s of `next_token`, the warning of `to_digit`, the `ERROR` diagnostics and `exit`. Errors are returned as a `ParseError` carrying the kind and the offending character.
- `PrintInstruction`, `ReadInstructionList`, `PrintInstructionList` and `DestroyInstructionList` are not part of this model. The `CodeGen` check for a missing output file is left out with them. The output file is a sequence the parser appends to.
- `free` in `delete_instruction`: the node simply leaves the list. Node identity and pointer aliasing are not modelled, because list positions replace pointers. The head is always the first position.
- The unimplemented constant-folding placeholder and its second empty-list check (Optimizer.c:193-200).
- Compiler.Parser.Expr: on failure the contract says only that earlier output is kept and extended, not which instructions were written before the error.
- Compiler.Parser.Assign: on failure the contract says only that earlier output is kept and extended, not which instructions were written before the error.
- Compiler.Parser.Swap: on failure the contract says only that earlier output is kept and extended, not which instructions were written before the error.
- Compiler.Parser.Read: on failure the contract says only that earlier output is kept and extended, not which instructions were written before the error.
- Compiler.Parser.Print: on failure the contract says only that earlier output is kept and extended, not which instructions were written before the error.
- Compiler.Parser.Stmt: on failure the contract says only that earlier output is kept and extended, not which instructions were written before the error.
- Compiler.Parser.MoreStmts: on failure the contract says only that earlier output is kept and extended, not which instructions were written before the error.
- Compiler.Parser.StmtList: on failure the contract says only that earlier output is kept and extended, not which instructions were written before the error.
- Compiler.Parser.Program: on failure the contract says only that earlier output is kept and extended, not which instructions were written before the error.
- Compiler.Compile: returns no partial output on failure, unlike the C program, which leaves a partially written file.
- Integer width: registers, fields and the interpreter's arithmetic use unbounded integers. 32-bit overflow of `regnum` or of ADD/SUB/MUL results is not modelled.
- Program-level semantic preservation of the optimizer is not proved. A fold deletes loads whose registers later code could in principle read, and the optimizer does not check this. Only the local three-instruction equivalence (`Peephole.FoldSound`) is proved.
- The interpreter in `IR` is a reference for stating meaning, not the instruction simulator, which is not part of this model.
