# JS-VM-Compiler in Dafny

A model of the four stages of JS-VM-Compiler, a Brainfuck toolchain written in
JavaScript:

- the **tokenizer** keeps the eight symbol characters `> < + - . , [ ]` of a
  source string and records the line and column of each;
- the **parser** walks the tokens with a cursor (`ListWalker`) and builds a linked
  AST by recursive descent, with a `While` node per loop;
- the **compiler** flattens the AST into an array of instructions, emitting a
  loop as a placeholder `ifjump`, the body and a `jump` back, then patching the
  placeholder with the index just past the `jump`;
- the **virtual machine** runs the instructions over a sparse tape of integer
  cells, with an optional tick budget and an output buffer.

Each stage follows the source's own form. The tokenizer's loop is a `for` loop
over the source characters that appends to the token list. The cursor, the token array and the compiler's
instruction array are objects the methods update, and `Memory`, `TicksLimit`
and `VM` are classes. Each method is proved against a specification function:
`TokensOf`, `StatementList`/`SingleStatement`/`WhileStatement`/`Program`, `Gen`,
`Dispatch`/`Exec`. The properties are then proved about those functions:

- the tokens are the symbol occurrences, with the right lines and columns;
- `parse` accepts exactly the balanced programs, and the AST is the text it
  went over;
- the compiler's code reads back as the program, and every `ifjump` is paired
  with the `jump` that closes its loop;
- the tick budget is exact, and a run on compiled code never sends `pc`
  beyond one past the end of the code.

Files: `errors.dfy` (results and error values), `tokenizer.dfy`, `parser.dfy`,
`parser_proofs.dfy`, `compiler.dfy` (module `Codegen`), `compiler_proofs.dfy`,
`vm.dfy`, `vm_proofs.dfy` and `pipeline.dfy` (the stages together). A thrown
object `{name, message}` is the value `Err(Error(name, message))`.

### Behaviour worth knowing

These behaviours of the code are easy to assume otherwise:

- **A stray `]`.** A `]` that closes nothing does not raise "Unexpected ]".
  It ends the statement list early, and `parse` then reports "Missing [".
  The "Unexpected ]" branch and "Unexpected end of program" cannot be reached
  through `parse` (`ParseErrors`, `LoneBrackets`).
- **No reset between compiles.** A `Compiler` never clears its array. A second
  `compile` appends to the first program's code. Every `CompiledProgram` and
  `VM` shares that one array (`CompileTwice`).
- **`parse` changes its argument.** `parse` pushes its end marker onto the
  caller's token list. Parsing the same list again fails with "Missing [" where
  the first parse succeeded (`ParseTwice`).
- **Empty programs.** An empty program parses to `null`, and `compile(null)`
  throws a TypeError (`EmptyProgram`, `Compiler.Compile`).
- **Characters that are rejected.** The only characters the tokenizer rejects
  are U+2028 and U+2029. The `.` of the whitespace pattern does not match
  them, and no alternative does.

## Model

| member | source | states |
|---|---|---|
| Tokenizer.NewToken | tokenizer.js:13-17 | the text is kept; a missing or zero line or position is stored as -1, any other value as given |
| Tokenizer.Token.Equals | tokenizer.js:52-54 | `equals` holds exactly when the argument is a token with the same text: a token equals itself and nothing that is not a token |
| Tokenizer.EqualsIsEquivalenceOnValue | tokenizer.js:52-54 | `equals` holds exactly when the argument is a token with the same text, never for a non-token, ignores line and position, and is reflexive, symmetric and transitive |
| Tokenizer.Tokenize | tokenizer.js:78-101 | throws SyntaxError "Unexpected symbol in input" exactly when some character is neither a symbol nor matched by the whitespace pattern; otherwise returns one token per symbol character in order, each with the line and column the loop counters held there |
| Tokenizer.LineCountsLineFeeds | tokenizer.js:93-95 | the line of the character at index i is 1 plus the number of line feeds before it |
| Tokenizer.ColumnCountsSinceLineFeed | tokenizer.js:93-98 | the column is 1 plus the number of characters, skipped ones included, since the last line feed before it or since the start |
| Tokenizer.TokensAreSymbolOccurrences | tokenizer.js:83-86 | the k-th token is the token of the k-th symbol occurrence, occurrences are in increasing order, every symbol character has its token and no other character does, and the number of tokens is the number of symbol characters |
| Tokenizer.TokensAreSymbols | tokenizer.js:85-86 | every token's text is one symbol character |
| Parser.NewNode | parser.js:22-35 | a node is created exactly when the name is one of the seven valid names, with that kind and no links; any other name gives "Attempted to create ast node with unsupported name" |
| Parser.NewNodeKindRoundTrip | parser.js:63-125 | creating a node by a kind's name yields that kind, and distinct kinds have distinct names, so each `is...Node` predicate is a test of the kind |
| Parser.ListWalker.constructor | parser.js:153-157 | the walker shares the caller's list, starts at 0 and appends exactly one `EOP` token to it |
| Parser.ListWalker.NextToken | parser.js:164-172 | returns the token at the index and advances by one, or returns null without moving once the index reaches the length |
| Parser.ListWalker.LookAheadToken | parser.js:179-185 | returns what `next_token` would return, without moving |
| Parser.StatementList | parser.js:218-227 | a successful statement list never moves the cursor backwards or past the end |
| Parser.SingleStatement | parser.js:234-268 | a successful single statement consumes at least one token and stays within the list |
| Parser.WhileStatement | parser.js:275-286 | a successful loop consumes at least its `]` and stays within the list |
| Parser.ParseStatements | parser.js:218-227 | the method's result and final cursor are those of the grammar function `StatementList` from the starting cursor |
| Parser.ParseSingleStatement | parser.js:234-268 | the method's result and final cursor are those of `SingleStatement` |
| Parser.ParseWhile | parser.js:275-286 | the method's result and final cursor are those of `WhileStatement` |
| Parser.Parse | parser.js:296-306 | the caller's list gains exactly the end marker, and the result is `Program` of the original tokens |
| ParserProofs.StatementListErrors | parser.js:219-226 | on a list ending in the end marker a statement list fails only with "Expected ] not found" or "Unknown token in input" |
| ParserProofs.SingleStatementErrors | parser.js:235-241 | a statement that is not `]` never meets the end of the list: "Unexpected end of program" cannot occur |
| ParserProofs.ParseErrors | parser.js:296-306 | `parse` throws only "Expected ] not found", "Unknown token in input" or "Missing [" |
| ParserProofs.ScanDepth | parser.js:219 | the bracket scan runs to the end exactly when no prefix closes more brackets than are open, and then ends with the text's depth open |
| ParserProofs.StatementListOutcome | parser.js:218-227 | on symbol tokens the statement list stops at the first unmatched `]` or consumes the end marker when every bracket is matched, and otherwise fails with "Expected ] not found"; what it builds is exactly the tokens it went over |
| ParserProofs.ParseAcceptsBalanced | parser.js:296-306 | `parse` of symbol tokens succeeds exactly when the brackets are balanced, and then the AST reads back as every token in order; otherwise an unmatched `]` gives "Missing [" and an unclosed `[` gives "Expected ] not found" |
| ParserProofs.LoneBrackets | parser.js:299-303 | `[` alone gives "Expected ] not found" and `]` alone gives "Missing [" |
| ParserProofs.EmptyProgram | parser.js:243-244 | a program without symbols parses to null |
| ParserProofs.ParseTwice | parser.js:156 | parsing a list a second time fails with "Missing [" if the first parse succeeded and repeats the first error otherwise |
| ParserProofs.LoopsCountBrackets | parser.js:275-277 | there is one `While` node per `[` token |
| ParserProofs.UnparseBalanced | parser.js:275-286 | the text an AST stands for is balanced |
| ParserProofs.TokenizedIsSymbols | tokenizer.js:85-86 | what `tokenize` returns is made of symbol tokens, so the parser's alternatives cover it |
| ParserProofs.TokenTexts | tokenizer.js:83-86 | the texts of a source's tokens are its symbol characters in order |
| Codegen.CompiledProgram.constructor | compiler.js:12-14 | the program holds a reference to the given array, not a copy |
| Codegen.CompiledProgram.ByteCode | compiler.js:21-23 | `byte_code()` hands out the very array the program shares with its compiler, not a copy |
| Codegen.Compiler.constructor | compiler.js:38-40 | a compiler starts with a fresh, empty array |
| Codegen.Compiler.Compile | compiler.js:48-51 | `compile(null)` throws the TypeError of `null.accept` and changes nothing; otherwise the AST's code is appended after whatever the array held, and the program returned is fresh and shares the array |
| Codegen.Compiler.Visit | compiler.js:58-67 | the array gains exactly the code of the node and of its `next` chain, placed at the current end; what was there is unchanged |
| Codegen.Compiler.VisitWhile | compiler.js:74-87 | the array gains the patched `ifjump` pointing just past the `jump`, the body's code and a `jump` back to the `ifjump`; nothing before changes |
| Codegen.Compiler.VisitNonWhile | compiler.js:94-134 | a simple node appends its one instruction (`<>` with plus or minus 1, `+-` with plus or minus 1, `PRINT`, `READ`); a `While` node throws "While node must be processed via visitor" and appends nothing |
| CodegenProofs.LoopHead | compiler.js:75-86 | a loop placed at index h is `ifjump` to h plus the body's length plus 2, the body placed at h+1, and `jump` to h |
| CodegenProofs.SimpleSymbols | compiler.js:95-122 | each simple node's instruction stands for the node's own symbol |
| CodegenProofs.GenSymbols | compiler.js:58-67 | the emitted code, read back one symbol per instruction, is the program text: the node, its body inside brackets, then its chain |
| CodegenProofs.GenLength | compiler.js:58-87 | the code has one instruction per simple node and two per loop, which is one per token |
| CodegenProofs.PairedWrap | compiler.js:76-86 | wrapping paired, balanced code in its loop's `ifjump` and `jump` keeps every instruction paired |
| CodegenProofs.GenPaired | compiler.js:74-87 | in the emitted code every `ifjump` is patched to just past a `jump` back to it with balanced code between them, and every `jump` goes back to an `ifjump` patched to just past it |
| CodegenProofs.CompileKeepsPaired | compiler.js:48-51 | appending the code of another AST to paired code keeps the whole paired |
| CodegenProofs.PairedTargets | compiler.js:82-86 | in paired code every jump target lies within the code or just past it, and every `jump` goes backwards |
| CodegenProofs.LoopExample | compiler.js:74-87 | `[-]` compiles to `ifjump` to 3, `+-` with -1, `jump` to 0 |
| CodegenProofs.CompileTwice | compiler.js:38-51 | two `compile` calls on one compiler return programs sharing one array, which holds both ASTs' code in order and stays paired |
| VirtualMachine.Memory.constructor | vm.js:6-9 | a new memory has no cell written and the pointer at 0 |
| VirtualMachine.Memory.Move | vm.js:16-18 | only the pointer changes, by the given steps |
| VirtualMachine.Memory.Update | vm.js:25-27 | only the current cell changes, to its old value (0 if never written) plus the difference; the pointer is unchanged |
| VirtualMachine.Memory.Get | vm.js:34-37 | `get()` is the value last stored at the pointer, or 0 when that cell was never written |
| VirtualMachine.TicksLimit.constructor | vm.js:53-55 | the counter starts at the given limit |
| VirtualMachine.TicksLimit.HasMoreTicks | vm.js:61-69 | -1 answers yes and stays; 0 answers no and stays; any other count answers whether it was positive and is decremented |
| VirtualMachine.VM.constructor | vm.js:87-94 | the VM shares the program's array, has fresh memory and counter, `pc` 0, empty output, and the limit given, or -1 when none is |
| VirtualMachine.VM.Execute | vm.js:103-126 | one loop body: the new state and the error are those the step function `Dispatch` gives for the old state |
| VirtualMachine.VM.Run | vm.js:100-135 | the final state and how the run ended are those of the run function `Exec` from the starting state |
| VirtualMachineProofs.TicksReplies | vm.js:61-69 | a limit of -1 answers yes forever; a limit n of 0 or more answers yes exactly n times and then no forever; any other negative limit always answers no |
| VirtualMachineProofs.CellDefault | vm.js:34-37 | a never-written cell reads 0 at any index, negative ones included, whatever other cells were written |
| VirtualMachineProofs.CellAfterUpdate | vm.js:25-27 | after `update(d)` the current cell reads its old value plus d and every other cell reads as before |
| VirtualMachineProofs.DispatchFrame | vm.js:105-118 | an instruction leaves the counter alone, `PRINT` appends exactly the current cell modulo 65536 and nothing else appends, and only `READ` throws, keeping memory and output with `pc` just past it |
| VirtualMachineProofs.DispatchPc | vm.js:119-126 | `pc` is incremented first; `ifjump` moves it to its target exactly when the current cell is 0, `jump` always does |
| VirtualMachineProofs.DispatchIgnoresTicks | vm.js:102-126 | what an instruction does does not depend on the counter |
| VirtualMachineProofs.RunTickBudget | vm.js:102 | with a limit N of 0 or more at most N instructions are dispatched, the counter ends at N minus that number, and a run stopped by the limit dispatched exactly N |
| VirtualMachineProofs.RunUnbounded | vm.js:91-92 | without a limit a run never stops for lack of ticks and the counter stays -1 |
| VirtualMachineProofs.RunBelowUnbounded | vm.js:61-69 | a limit below -1 dispatches nothing and leaves memory, output and `pc` as they were |
| VirtualMachineProofs.RunOutputGrows | vm.js:112-114 | the output buffer only grows |
| VirtualMachineProofs.RunEnds | vm.js:102-118 | a run that returns normally without running out of ticks has `pc` at or past the end of the code; a run that throws threw "Not supported in this VM" for the `READ` just before `pc` |
| VirtualMachineProofs.RunFuelMonotone | vm.js:102 | the model's iteration bound only cuts runs short: a run that ended within it ends the same way with any larger bound |
| VirtualMachineProofs.LimitOnlyTruncates | vm.js:102 | a limited run's output is a prefix of the unlimited run's, it dispatches no more, and unless the limit stopped it, it ends exactly as the unlimited run does |
| VirtualMachineProofs.PairedRunStaysInRange | vm.js:119-126 | on paired code `pc` never goes beyond one past the end of the code |
| Pipeline.CompiledSource | test.js:12-14 | a source parses exactly when its brackets are balanced, and then its code reads back as its symbol characters in order and is paired |
| Pipeline.RunCompiled | test.js:16-17 | running compiled code without a limit keeps `pc` within the code or just past it, and a run that stops either finished or met a `READ` |

## Left out

- VirtualMachine.VM.Run: `run` has no bound of its own and may loop forever, so the model takes a fuel argument (one unit per loop iteration) and reports `OutOfFuel` when it is spent. `RunFuelMonotone` shows the bound only cuts runs short.
- VirtualMachine.Dispatch: an `ifjump` that was never patched sets `pc` to `undefined` in the source, which ends the loop. The model sets `pc` to the code's length, which also ends it. The two differ only if the array later grows, and compiled code is always patched (`GenPaired`).
- JavaScript numbers: cells, the pointer, the steps and the tick limit are unbounded integers. Doubles lose precision beyond 2^53, which is not modelled. Non-integer, `null` or non-number tick limits are not modelled either; a limit is either absent (-1) or an integer.
- UTF-16: a `char` stands for one code unit of the source string. Every surrogate code unit, paired or lone, is outside the model, so characters outside the BMP are not modelled: a Dafny `char` above U+FFFF counts one column in `Column` and `Tokenize` where the source, which sees two code units, counts two. The output buffer is a sequence of code units (`v` modulo 65536), not a string.
- The `accept`/`visit` double dispatch is direct recursion over the AST datatype. `AstNode.setNext`/`next` and `statements` are the `next` and `body` fields of a node value: the parser sets each node's links once, before the node is handed to anyone, and nothing aliases a node.
- The `is...Node` predicates are tests of `kind`, justified by `NewNodeKindRoundTrip`. The `value()`, `line()` and `position()` accessors are the token's fields.
- The "unknown node in ast" and "unknown byte code" throws cannot be reached. Every node has one of the seven kinds and every instruction one of the six operations, so the datatypes cannot represent the inputs that reach those throws.
- test.js prints the VM's output with `console.log`; that I/O and its Hello World run are not part of this model. The calls it chains are `CompiledSource` and `RunCompiled`.
