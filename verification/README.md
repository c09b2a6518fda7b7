# Verified models of FreeLang fx2

FreeLang fx2 is a Lisp that compiles itself to C and runs on a small C runtime. This project models the parts of
it where a mistake would be hardest to see and proves what they are for: the compiler's meaning, the machine code of
the JIT, the memory that requests and atoms live in, the two concurrent protocols of the network layer, and the text
formats values are written to and read back from.

| file | what it models |
|---|---|
| `FLValue`, `Strings`, `Sequences`, `Decimal`, `Bytes`, `Wrappers` | tagged values, truth, equality and copy-on-write maps; split, join and replace; shared helpers |
| `Lexer`, `Spacing`, `Escape`, `NumberLiterals`, `TokenParser`, `TreeTokens` | from source text to tokens to trees, and back; any layout of the tokens; string literals through `c_esc`, number literals as C reads them |
| `CNames`, `Compiler` | the identifiers of the emitted C, spelled by the program or made up by the compiler; the `cgc_*` code generator, a reference meaning of the source, a meaning of the emitted C |
| `CompilerCorrectness`, `CompilerModes`, `CompilerSteady`, `CompilerNames`, `CompilerTheorem` | the simulation of the source by the C; when running all operands makes a difference; which programs can be seen to be safe; the names in the C; the results about the compiler as a whole |
| `CompilerSource`, `SourceTheorem` | how `cgc` reads a tree; how a program is written; the way from text to C as a whole |
| `CompilerLimits`, `CompilerFailures` | what any C that runs demands of names; programs whose C does something else |
| `Jit`, `JitBuilder`, `JitRuntime` | the x86-64 instructions the JIT uses, its byte emitter, code pool and call counter; the code against `fl_add` and `fl_mul` |
| `Arena`, `AtomHeap`, `AtomHandles` | the per-thread bump arena; the reference-counted heap and the atoms on it; how long a value read from an atom lasts |
| `NetRegistry`, `WorkerPool` | the descriptor registry with guards and close-once; the bounded pool with graceful drain |
| `Json`, `JsonTexts`, `JsonBuffers`, `JsonLimits`, `Utf8`, `WebSocket` | printing and parsing JSON, any JSON text with white space and escapes, its growing buffers, which texts it reads past, UTF-8, WebSocket frames |
| `LoadInliner`, `Metadata`, `Route`, `NestedMaps` | `(load ...)` inlining, the two-program metadata pipeline, route matching, updates on paths |

How the parts are modelled:

- Recursive code is functions. Code that updates variables in a loop, fields of an object or a buffer in place is a
  method or a class, proved equal to a function of its inputs; the promises are then proved about that function.
- A concurrent protocol is a state machine with one step for each critical section or system call. What is proved
  holds in every reachable state of every interleaving.
- Every lemma switches automatic induction off, so each induction is written out.
- Where a promise does not hold for every input, the model keeps the code as it is and says exactly when it holds: a
  concrete input that breaks it, or an if-and-only-if.

What was found on the way:

- `and` and `or` compile to eager calls, and a `let` in tail position of a loop compiles to its last expression only:
  where the source has a value, the C agrees exactly when all that is evaluated in vain or left out has values.
- A `let` name in its own initialiser, two names with one C spelling, and a `let` that shadows a loop variable each
  change the meaning of the program or stop it from compiling. So do names the compiler makes up itself: it accepts
  `_fl_result` and `_fl_t0` as names of the program and spells them the same.
- A number literal with a zero in front is octal in C: `010` is eight, and `08` does not compile.
- An arena request larger than a chunk kept from before a reset is placed in that chunk all the same.
- What `fl_atom_deref` returns is freed by the next reset of that atom, unless it is a scalar or a closure. `cgc_defn`
  resets an atom to what it read from it before another reset: it copies from a freed vector.
- `fl_net_close_once` closes a descriptor it finds no entry for. Between the search and the system call the descriptor
  can have been handed out again, registered and guarded; then it is closed under the guard.
- The accept loop can queue a connection after the last worker has left; such a connection is never answered.
- The key and payload of a ping frame are read as the next frame. It goes well exactly when they are made of complete
  headers of pings; a client's empty ping has a key, so its fate depends on four random bytes.
- `strstr` finds the empty separator everywhere, so `split` with it never ends.
- The room `fl_json_stringify` asks for a string is computed in 32 bits: from 715827883 characters on it can be too
  little, and the writes leave the buffer.
- `fl_json_parse` runs past the end of a text that is white space only, or stops in or behind a key, behind its colon, behind a
  comma and white space in a vector, or right behind a backslash in a string. One pass over the text tells exactly when;
  it never happens on a text that ends outside a string and not in white space, a colon or a quote.
- A path with a segment of 512 bytes or more overruns the buffer of `match_route` for some route, a parameter name of
  128 bytes or more does for some path, and nothing else does.
- A route pattern with a repeated parameter name loses a value of some path it matches, and only such a pattern does.

## Model

| member | source | states |
|---|---|---|
| CompilerTheorem.CompilationPreservesMeaning | target-gen1.c:2338-2488 | with the real `c_name`, for any expression whose names have different free spellings, in any surrounding scope, at every fuel: the C does exactly what the source does with all operands run, and leaves every C variable as it was; if both have a value it is the same; they agree in value, throw and divergence if no operand evaluated in vain and no expression left out lacks a value, and where the source has a value only then; a value of the C is the source's if no `let` is cut |
| CompilerTheorem.QuietProgramsKeepTheirMeaning | target-gen1.c:2338-2488 | a condition on the text alone: if later operands of `and` and `or`, and what a `let` in tail position of a loop holds before its last expression, are total, the C has the outcome of the source |
| CompilerModes.Modes | target-gen1.c:2470-2484 | one checked run decides: if it stays steady it is both the run of the source and that of the C; if both of these have a value it does stay steady |
| CompilerSteady.QuietIsSteady | target-gen1.c:2470-2484 | a checked run of a program that is quiet by its text stays steady |
| SourceTheorem.CompiledTextKeepsItsMeaning | target-gen1.c:1661-2488 | from text to C: for a program written in any layout, lexing, parsing and compiling succeed, the C hides nothing it calls, and if it and the program both have a value it is the same; where the program has one, they agree exactly if the run is steady; for a program quiet by its text they agree whatever happens |
| SourceTheorem.WrittenProgramIsRead | target-gen1.c:1661-2237 | however the tokens of a program are laid out, lexing and parsing the text and reading the tree as `cgc` does gives exactly that program |
| SourceTheorem.EveryProgramHasAText | target-gen1.c:1661-2237 | so every program of integers, strings, names and modelled forms has a text |
| CompilerSource.LowerBack | target-gen1.c:2178-2215 | dispatching on the head of a list, as `cgc_dispatch` does, finds the form that was written |
| CompilerSource.KnownHeadIsSpellable | target-gen1.c:2186-2213 | each head with a name of its own is a name to the lexer and the parser and is found again under it |
| CompilerSource.LiteralDenotes | target-gen1.c:2107-2117 | the value C gives to the text emitted for a literal is the value of the literal in the program |
| CompilerSource.NumberTakenExactly | target-gen1.c:2111 | a number token is taken if and only if it fits `long long` and has no superfluous zero in front, or is below eight |
| CompilerNames.EmittedIsClear | target-gen1.c:2087-2096 | every variable the emitted C declares is an identifier, no keyword, and hides no function that the C calls |
| CNames.SpellingOfId | target-gen1.c:2091-2096 | no spelling stands for two C variables, so different spellings are different variables |
| CompilerCorrectness.Correct | target-gen1.c:2747-2756 | the simulation behind it, for any spelling that keeps the program's names apart from each other and from the compiler's, also in tail position of a loop: a value with an unchanged store, or a jump that changes exactly the loop variables and raises the flag |
| CompilerCorrectness.CorrectIf | target-gen1.c:2758-2765 | `if` as a C ternary, a missing else being nil, with `recur` allowed in both branches |
| CompilerCorrectness.CorrectCond | target-gen1.c:2767-2783 | nested ternaries choose the first clause whose test is true, although clauses after an else are dropped |
| CompilerCorrectness.CorrectDo | target-gen1.c:2785-2791 | a statement expression runs its parts in order and has the value of the last |
| CompilerCorrectness.CorrectLetBlock | target-gen1.c:2369-2410 | declarations in sequence give the body the bindings of the source; nothing of them is left behind |
| CompilerCorrectness.CorrectLetBody | target-gen1.c:2793-2810 | inside a loop only the last body expression is emitted |
| CompilerCorrectness.CorrectChain | target-gen1.c:2462-2468 | `+`, `*` and the like over any number of operands: left fold, one operand itself, none zero, unary minus |
| CompilerCorrectness.CorrectAnd | target-gen1.c:2470-2476 | the fold of `fl_and` runs every operand and has the value of the first false one, or of the last |
| CompilerCorrectness.CorrectOr | target-gen1.c:2478-2484 | the fold of `fl_or` runs every operand and has the value of the first true one, or of the last |
| CompilerCorrectness.CorrectRecur | target-gen1.c:2739-2745 | all arguments are evaluated before any variable changes; then all variables change at once and the flag goes up |
| CompilerCorrectness.CorrectLoopVars | target-gen1.c:2711-2718 | each initial value through its temporary: later initialisers see the earlier variables |
| CompilerCorrectness.CorrectWhile | target-gen1.c:2720-2729 | the flag-driven `while` runs exactly the rounds of the source loop, whose last value is in the result variable |
| CompilerCorrectness.CorrectLoopBlock | target-gen1.c:2720-2729 | a whole `loop`, nested ones included, as an expression |
| CompilerTheorem.AndAgreesExactly | target-gen1.c:2474-2476 | where the source has a value, the emitted `and` agrees with it if and only if every operand has a value |
| CompilerTheorem.OrAgreesExactly | target-gen1.c:2482-2484 | the same for `or` |
| CompilerFailures.AndIsEager | target-gen1.c:2474-2476 | the input that breaks it: false and a throwing call |
| CompilerFailures.LetDropsAnExpression | target-gen1.c:2793-2810 | a throwing call before the last expression of a `let` in a loop: a throw in the source, a value in C |
| CompilerFailures.OwnInitialiser | target-gen1.c:2380-2389 | a `let` name in its own initialiser: a value in the source, an uninitialised read in C |
| CompilerFailures.CollidingNames | target-gen1.c:2091-2096 | two names with one C spelling in one `let`: a value in the source, a redeclaration in C |
| CompilerFailures.ShadowedLoopVariable | target-gen1.c:2735-2737 | a `let` that shadows a loop variable: two rounds in the source, endless in C |
| CompilerFailures.ResultIsTaken | target-gen1.c:2720-2729 | a name spelled `_fl_result` read in a loop: 5 in the source, nil in C |
| CompilerFailures.TempIsTaken | target-gen1.c:2731-2745 | a name spelled `_fl_t0` in a jump with two arguments: 7 in the source, 1 in C |
| CompilerFailures.OwnNameStays | target-gen1.c:2087-2096 | the names the compiler makes up are left as they are when a program uses them |
| CompilerLimits.DeclaresOnce | target-gen1.c:2711-2718 | statements that run to their end declare each variable once, and none the scope already had |
| CompilerLimits.LetNeedsApart | target-gen1.c:2391-2401 | if the C of a `let` has a value at all, the C spellings of its names are pairwise different |
| CompilerLimits.LoopNeedsApart | target-gen1.c:2711-2718 | the same for the variables of a `loop` |
| Lexer.TokenProgress | target-gen1.c:1630-1640 | on any text, reading a token consumes a character and adds exactly one token, so lexing ends |
| Lexer.ReadStringIter | target-gen1.c:1535-1566 | the loop computes the string token the escape rules define, from any state |
| Lexer.NumberTaken | target-gen1.c:1488-1521 | the token of a number is the longest run of digits with at most one dot |
| Lexer.ReadNumberIter | target-gen1.c:1488-1521 | the loop computes that token, from any state |
| Lexer.SymbolTaken | target-gen1.c:1581-1602 | the token of a name is the longest run of symbol characters |
| Lexer.ReadSymbolIter | target-gen1.c:1581-1602 | the loop computes that token, from any state |
| Lexer.ReadTokenLoop | target-gen1.c:1630-1640 | which of them reads the token is decided by its first characters |
| Lexer.SkipWsLoop | target-gen1.c:1461-1482 | skips white space and comments up to the next token or the end |
| Lexer.SkipCommentLoop | target-gen1.c:1441-1455 | skips to the end of the line and past it |
| Lexer.LexLoop | target-gen1.c:1642-1663 | the token loop computes the tokens of the whole text |
| Spacing.AnyLayoutLexes | target-gen1.c:1461-1663 | tokens written out in any layout, with blanks and comments between them and nothing where a bracket or a quote separates them, are lexed to exactly these tokens |
| Escape.CEscIsPerCharacter | target-gen1.c:2083-2085 | the five chained whole-string replacements equal one escape per character |
| Escape.LiteralReadsBack | target-gen1.c:1535-1579 | wherever a quoted `c_esc` text stands, the lexer yields one String token with exactly that text and stops right after the closing quote |
| Escape.LexLiteral | target-gen1.c:1642-1663 | lexing a file that is one such literal |
| Escape.LoneBackslash | target-gen1.c:1545-1555 | a backslash at the very end adds the three letters of nil |
| Escape.EmittedLiteralDenotes | target-gen1.c:2083-2085 | by the escape rules of C11 section 6.4.4.4 the emitted literal denotes the original text |
| NumberLiterals.DigitsDenoteExactly | target-gen1.c:2111 | by C11 section 6.4.4.1 the pasted digits denote their decimal value if and only if it fits `long long` and there is no zero in front, or the value is below eight |
| NumberLiterals.NumberText | target-gen1.c:1488-1521 | the text of a number token without a dot is digits |
| NumberLiterals.NegativeText | target-gen1.c:1488-1521 | with a minus sign in front, the digits are behind it |
| NumberLiterals.LeadingZeroChanges | target-gen1.c:2111 | `010` is eight in C |
| NumberLiterals.EightIsNoOctal | target-gen1.c:2111 | `08` is no constant in C |
| TokenParser.ParseExpr | target-gen1.c:1914-1925 | on any tokens it consumes at least one or throws |
| TokenParser.ParseArgs | target-gen1.c:1967-1975 | it stops only at a closing bracket or the end |
| TokenParser.ThrowsOnlyAtTheEnd | target-gen1.c:2067-2073 | parsing ends on every token sequence and throws only where the text stops behind a token that needs another |
| TokenParser.ExprKept | target-gen1.c:1904-1958 | on balanced tokens an expression stands for exactly the tokens it consumed |
| TokenParser.ArgsKept | target-gen1.c:1967-1975 | so does a list of them |
| TokenParser.ParserKeepsEveryToken | target-gen1.c:2067-2077 | flattening the trees of a balanced token sequence gives the tokens back, in order, up to the spelling of nil |
| TreeTokens.TreesComeBack | target-gen1.c:1904-2077 | the other direction: tokens that spell trees of the kinds the parser makes are parsed to exactly those trees |
| TokenParser.DereferenceIsACall | target-gen1.c:1919-1923 | why `@` is excluded: it parses to the tree of the call it abbreviates |
| TokenParser.TryKeepsThree | target-gen1.c:1939-1944 | why `try` is excluded: parts after the third are lost |
| Jit.BytesRoundTrip | runtime/jit.c:92-100 | reading an n-byte little-endian number back |
| Jit.DecodeEncode | runtime/jit.c:102-170 | decoding undoes encoding for each instruction, wherever it lies in the code |
| Jit.InstrAt | runtime/jit.c:88-160 | where in the bytes of a program its k-th instruction lies |
| Jit.RunFromStart | runtime/jit.c:132-142 | fetching and decoding the bytes of a program, jumps included, is walking its instructions |
| Jit.ConstRuns | runtime/jit.c:184-195 | the constant's code returns the tag of an integer and exactly the 64-bit constant |
| Jit.AddConstRuns | runtime/jit.c:212-243 | for every 64-bit constant: the sum modulo 2^64 on an integer, otherwise a jump to the fallback with RDI, RSI, RDX as they came |
| Jit.MulConstRuns | runtime/jit.c:248-270 | the same for multiplication by every 32-bit constant |
| Jit.AddTwoRuns | runtime/jit.c:290-321 | both arguments must be integers; the two checks share one fallback |
| JitRuntime.AddTwoIsFlAdd | runtime/core.c:185-202 | where `fl_add` gives an integer the compiled sum returns that integer; where it overflows, the sum modulo 2^64; on anything but two integers it leaves to the fallback |
| JitRuntime.AddConstIsFlAdd | runtime/core.c:185-202 | the same with one constant operand |
| JitRuntime.MulConstIsFlMul | runtime/core.c:216-226 | the same for `fl_mul` by a 32-bit constant |
| JitRuntime.AddTwoKeepsAnswers | runtime/jit.c:272-321 | for any function that is `fl_add` where that gives an integer, whatever it does with floats, strings and errors: compiled or not, a call has the same answer, except where the sum overflows |
| JitRuntime.AddConstKeepsAnswers | runtime/jit.c:197-243 | the same with one constant operand |
| JitRuntime.MulConstKeepsAnswers | runtime/jit.c:245-270 | the same for `fl_mul` by a 32-bit constant |
| JitBuilder.Emitter.EmitU8 | runtime/jit.c:88-90 | one byte is appended, or dropped when the buffer is full |
| JitBuilder.Emitter.EmitNumber | runtime/jit.c:92-100 | least significant byte first |
| JitBuilder.Emitter.PatchRel8 | runtime/jit.c:138-142 | the byte becomes the distance from the jump's end to here, modulo 256 |
| JitBuilder.PatchAssembled | runtime/jit.c:132-142 | if the distance fits one byte, patching the byte patches the jump instruction |
| JitBuilder.AddSmallAssembled | runtime/jit.c:212-243 | the bytes emitted for a small constant, after patching, are the program proved correct above |
| JitBuilder.AddLargeAssembled | runtime/jit.c:222-228 | the same for a constant that needs a register |
| JitBuilder.MulAssembled | runtime/jit.c:248-270 | the same for multiplication |
| JitBuilder.AddTwoAssembled | runtime/jit.c:290-321 | the same with two jumps patched to one place |
| JitBuilder.CodePool.Install | runtime/jit.c:66-79 | new code is placed 8-aligned behind all earlier code, which stays; refused exactly when it does not fit |
| JitBuilder.BuildConstInt | runtime/jit.c:184-195 | the pool holds the whole program, no byte dropped, or had no room |
| JitBuilder.BuildAddIntConst | runtime/jit.c:212-243 | the same for every constant, short and long form |
| JitBuilder.BuildMulIntConst | runtime/jit.c:248-270 | the same |
| JitBuilder.BuildAddTwoInts | runtime/jit.c:290-321 | the same |
| JitBuilder.ProbeClosure.Call | runtime/jit.c:332-348 | the entry is swapped exactly by the first call at or past the threshold that finds room; the answer is the same before and after |
| JitBuilder.ProbeClosure.CallMany | runtime/jit.c:332-348 | in any sequence of calls every answer is the same integer |
| Arena.AllocSound | runtime/gc.c:81-107 | blocks stay aligned, inside one chunk and apart after a request if and only if the chunk it goes to has room |
| Arena.EnterSound | runtime/gc.c:96-103 | entering the next chunk is sound if and only if the block fits, which the code does not look at |
| Arena.RunsSound | runtime/gc.c:66-127 | in every run of begin, end and requests of at most 64 KiB: alignment, one chunk each, disjoint since the reset, chunks past the head empty |
| Arena.LargeRequestOverruns | runtime/gc.c:96-103 | a run in which a larger request is placed in a kept chunk it does not fit |
| Arena.Replay | runtime/gc.c:74-79 | after a reset the same requests get the same addresses from the same chunks, whatever malloc would offer |
| Arena.ThreadArena.Allocate | runtime/gc.c:81-107 | the allocator is the transition above and returns the block it records; without an arena the caller is served by malloc |
| Arena.ThreadArena.BeginRequest | runtime/gc.c:66-79 | creates the arena or resets it |
| Arena.ThreadArena.EndRequest | runtime/gc.c:121-127 | resets and keeps the chunks |
| AtomHeap.CopyIsCopy | runtime/gc.c:193-252 | the copy reads the same, consists of new nodes owned once each, counts each closure occurrence, and changes nothing else |
| AtomHeap.ReleaseFrees | runtime/gc.c:262-295 | releasing a solely owned tree frees each node exactly once, lowers each closure once per occurrence, touches nothing else |
| AtomHeap.AfterFirst | runtime/gc.c:273-279 | freeing one element leaves its siblings owned as before |
| AtomHeap.RcHeap.CopyValue | runtime/gc.c:193-252 | the recursive copy on the heap object computes exactly that copy |
| AtomHeap.RcHeap.ReleaseValue | runtime/gc.c:262-295 | the recursive release frees exactly those nodes and never one twice |
| Atoms.ResetKeeps | runtime/math.c:215-222 | for any acyclic value, even one sharing nodes with the old content: the atom reads as the value did, from new nodes only; the old nodes, and only they, are gone; other atoms are as before; a closure's count stays exact if and only if it never passed 0xFE on the way |
| Atoms.NewKeeps | runtime/math.c:195-208 | a new atom owns a fresh copy, all others are as before |
| Atoms.StepKeeps | runtime/math.c:195-222 | building a value, making an atom, resetting one and reading one keep ownership and counts |
| Atoms.RunsKeep | runtime/math.c:195-222 | so does every run of them that stores only values that are still there: every atom owns its content alone, nothing is used after it is freed or freed twice |
| AtomHandles.SurvivesExactly | runtime/math.c:215-222 | a value not read through the atom itself reads the same after a reset if and only if it shares nothing with the old content |
| AtomHandles.OldContentReadable | runtime/math.c:210-222 | what was read from an atom is still readable after its reset if and only if it is a scalar or a closure |
| AtomHandles.HandleLasts | runtime/math.c:210-213 | in any run, what `fl_atom_deref` returned reads the same at the end if and only if that atom was not reset since, or held a scalar or a closure |
| AtomHandles.SavedThenRestored | target-gen1.c:2430-2437 | reading an atom, resetting it, and resetting it to what was read uses a freed object if and only if the atom held a string, a vector or a map |
| Atoms.AtomReset | runtime/math.c:215-222 | copy first, then release: the heap object ends in exactly the state above |
| Atoms.AtomNew | runtime/math.c:195-208 | the same for a new atom |
| NetRegistry.StepKeeps | runtime/net.c:42-119 | each critical section and each system call keeps the invariant |
| NetRegistry.EveryInterleaving | runtime/net.c:42-119 | in every interleaving in which closes of unknown descriptors hit none that is registered by then: refs of a listed entry are its guards plus one; the list is strictly decreasing in generation; each close call hit its own generation and none twice; while a guard is held its entry stays and still owns its descriptor |
| NetRegistry.RegisteredIsTame | runtime/net.c:95-98 | so it is in every run in which each close finds its descriptor registered |
| NetRegistry.StrayKeepsExactly | runtime/net.c:98 | a close of a descriptor that had no entry keeps the invariant if and only if no generation owns the descriptor by then |
| NetRegistry.CloseIsUnguarded | runtime/net.c:105-107 | the system call is made with no guard held, on a descriptor the generation still owns |
| NetRegistry.WaitsForGuards | runtime/net.c:105 | a waiting closer may go on if and only if nobody holds a guard |
| NetRegistry.FreedWhenClosed | runtime/net.c:59-64 | an entry is freed only by its own closer, closed, with refs 0, its descriptor given back |
| NetRegistry.ReusedDescriptor | runtime/net.c:42-58 | while an old close is still being finished, looking the reused descriptor up finds the newest generation |
| NetRegistry.LateState | runtime/net.c:95-118 | a run after which a descriptor is open again with no entry |
| NetRegistry.LateCloserFindsNothing | runtime/net.c:95-98 | a second closer of the old one finds no entry and closes the stranger's descriptor |
| NetRegistry.LateCloserHitsAGuard | runtime/net.c:95-98 | or closes it when it is registered and guarded already |
| NetRegistry.Registry.Find | runtime/net.c:42-58 | the search loops find the first matching entry |
| NetRegistry.Registry.RegisterFd | runtime/net.c:65-79 | a new generation at the head; 0 and nothing changed for a negative descriptor |
| NetRegistry.Registry.AcquireFd | runtime/net.c:80-86 | one more reference on the first open entry, or nothing |
| NetRegistry.Registry.ReleaseFd | runtime/net.c:87-94 | one reference less, and the entry goes when it was closed and this was the last |
| NetRegistry.Registry.BeginClose | runtime/net.c:95-105 | not registered, claimed by somebody else, or claimed by this call |
| NetRegistry.Registry.EndClose | runtime/net.c:113-118 | closed, one reference less, removed when that was the last |
| WorkerPool.EveryRun | runtime/http.c:913-945 | in every reachable state each accepted connection is in exactly one place, connections are taken in the order they were queued, the counters are right, and both limits hold |
| WorkerPool.StepMoves | runtime/http.c:913-945 | each step moves at most one connection, and only accepting brings one in |
| WorkerPool.DrainedExactly | runtime/http.c:1003-1025 | when all workers have left and the accept loop holds nothing, every accepted connection was answered if and only if none was queued after the last worker left |
| WorkerPool.GracefulDrain | runtime/http.c:1003-1025 | with at least one worker and no enqueue after the flag, every accepted connection was answered |
| WorkerPool.QueuedTooLate | runtime/http.c:1073-1106 | a run that queues a connection nobody will take |
| WorkerPool.Pool.Enqueue | runtime/http.c:1088-1106 | appended at the tail of the linked queue, or refused exactly at a limit |
| WorkerPool.Pool.TakeWork | runtime/http.c:916-932 | the head of the queue, or leaving exactly when the queue is empty and the flag is up |
| WorkerPool.Pool.Done | runtime/http.c:940-944 | one connection less in work; drained is announced exactly when none is queued or in work |
| JsonTexts.AnyTextIsRead | runtime/json.c:14-133 | any JSON text (RFC 8259) with integers: white space wherever it is allowed, strings with any escapes, surrogate pairs included, vectors and maps nested at will; the parser returns the value it stands for, nothing left over |
| JsonTexts.SpreadOutReadsBack | runtime/json.c:7-10 | a printed value with any white space between its tokens and around it is read as its canonical form |
| JsonTexts.StringifyThenParse | runtime/json.c:120-133 | parsing what was printed gives the canonical value with no trailing input, and gives the value itself if and only if it has no float, function, NUL or repeated key |
| JsonTexts.ValueReadsBack | runtime/json.c:102-118 | the text of any nested value is read as its canonical form wherever it stands, up to its end but for white space |
| JsonTexts.StringReadsBack | runtime/json.c:14-61 | any byte string, escaped, is read back byte for byte |
| JsonTexts.PiecesRead | runtime/json.c:18-52 | however the characters of a string are escaped, the bytes they stand for are added to the buffer |
| Json.IntValue | runtime/json.c:110-116 | every integer within 2^53 through its decimal digits |
| Json.CanonKeeps | runtime/json.c:80-100 | which values the way leaves alone: the order of entries is kept, a repeated key costs an entry |
| Json.PrintNulFree | runtime/json.c:201-225 | no printed text holds a NUL, so nothing is cut off when it becomes a C string |
| JsonTexts.EscapedScalarsDecode | runtime/json.c:27-50 | any sequence of non-zero Unicode scalar values written as `\u` escapes or surrogate pairs becomes their UTF-8 bytes, which decode to the same sequence with no byte left |
| Utf8.NextOfEncode | runtime/pdf_ttf.c:156-166 | decoding at an encoded character gives it back and moves just past it (RFC 3629 section 3) |
| Utf8.DecodeLoop | runtime/pdf_ttf.c:156-166 | repeated calls decode the whole text |
| JsonBuffers.JBuf.Ensure | runtime/json.c:164-170 | afterwards there is room for the bytes asked for and a NUL, the contents are as before, and the capacity was doubled no more than needed |
| JsonBuffers.StringifyStr | runtime/json.c:201-226 | the writes stay inside the buffer if and only if the position plus the length of the printed string is at most the capacity after asking for 6 n + 4 modulo 2^32 bytes; then the buffer gains exactly the printed string |
| JsonBuffers.StringifyBuf | runtime/json.c:186-248 | for any value: whether all writes stay inside, and then the buffer gains exactly its text |
| JsonBuffers.SmallStringsFit | runtime/json.c:201-226 | they do wherever 6 n + 4 does not wrap around, six bytes a character being enough, with room left for the NUL |
| JsonBuffers.LongStringLeaves | runtime/json.c:203 | a string of 715827883 characters asks for six bytes and leaves the buffer |
| JsonBuffers.Stringify | runtime/json.c:251-258 | the whole text with its NUL, or the fact that a write leaves the buffer, never so for strings that do not wrap around |
| JsonBuffers.StringLoop | runtime/json.c:14-61 | the parser's own buffer is never written past its end, up to four bytes a turn, whatever the text; a backslash at its end is reported as leaving the text |
| JsonBuffers.ArrayLoop | runtime/json.c:63-78 | the loop computes what the parser's definition says, on any text |
| JsonBuffers.ObjectLoop | runtime/json.c:80-100 | the same for objects |
| JsonBuffers.ParseJson | runtime/json.c:120-133 | the whole parser, trailing input included |
| JsonLimits.ParserFollowsScan | runtime/json.c:7-133 | on any text, one pass with the open brackets on a stack foretells the parser: it runs past the end if and only if the pass ends where a value is owed or right behind a backslash in a string; it throws if and only if the pass stops before the end; otherwise it returns a value, a number outside the model aside |
| JsonLimits.StaysInside | runtime/json.c:63-118 | it stays inside every text that, counting quotes and backslashes only, ends outside a string, and whose last character is no white space, colon or quote |
| JsonLimits.BlankText | runtime/json.c:102-118 | on a text of white space the cursor runs past the end |
| JsonLimits.LoneKey | runtime/json.c:80-100 | so it does on an object that stops behind a key, for any key |
| JsonLimits.CommaThenSpace | runtime/json.c:63-78 | and on an array that stops behind a comma and a space, for any element; without the space it stays inside |
| JsonLimits.OpenBackslash | runtime/json.c:18-20 | and on a string that stops right behind a backslash |
| WebSocket.XorUndone | runtime/websocket.c:202-203 | combining twice with one byte changes nothing |
| WebSocket.LengthReadsBack | runtime/websocket.c:165-175 | the 7-, 16- and 64-bit length forms read back, with the mask bit |
| WebSocket.WrittenFrameReadsBack | runtime/websocket.c:212-241 | wherever a written frame lies, reading there gives its payload and ends right behind it, if and only if the payload is at most 16 MiB |
| WebSocket.ClientFrameReadsBack | runtime/websocket.c:186-205 | a masked frame comes out unmasked (RFC 6455 section 5.3) |
| WebSocket.StreamRoundTrip | runtime/websocket.c:152-241 | any list of payloads written one after the other is read back in order, every byte used |
| WebSocket.PingIsSkippedExactly | runtime/websocket.c:180-184 | a ping with any payload and any key is passed over whole, whatever comes behind it, if and only if its key and payload are made of complete headers of pings |
| WebSocket.EmptyPingIsSkipped | runtime/websocket.c:180-184 | an empty ping without a key is passed over |
| WebSocket.ClientPingIsSkipped | runtime/websocket.c:180-184 | an empty ping with a key, which RFC 6455 section 5.1 demands of clients, is passed over if and only if the key is one or two headers of pings |
| WebSocket.PingInPing | runtime/websocket.c:180-184 | a ping whose payload is itself an empty ping is passed over whole |
| WebSocket.ClientPingIsMisread | runtime/websocket.c:180-184 | an empty ping whose key ends the connection |
| WebSocket.PingPayloadIsRead | runtime/websocket.c:180-184 | a ping whose payload does |
| WebSocket.Connection.ReadOne | runtime/websocket.c:152-209 | payload, position, close flag and pongs sent are those of the frame at the position |
| WebSocket.Unmask | runtime/websocket.c:201-204 | in place: byte i combined with byte i modulo 4 of the key |
| WebSocket.SendFrame | runtime/websocket.c:212-241 | the header filled step by step and the data form the frame |
| LoadInliner.BuildIsComplete | fl-build-helper.c:380-448 | on any file graph: visited without repetition and exactly what is reachable; each reachable file's own lines exactly once, in order; depth-first preorder; the cycle marker exactly where the target is on the stack |
| LoadInliner.InlineOwned | fl-build-helper.c:395-446 | each file newly visited contributes its lines once, any other none |
| LoadInliner.InlinePreorder | fl-build-helper.c:395-396 | the order of visiting is the order of first mention in the output |
| LoadInliner.InlineExplores | fl-build-helper.c:414-437 | whatever a newly visited file loads is visited, too |
| LoadInliner.InlineMarked | fl-build-helper.c:385-394 | an inlined section is the cycle marker if and only if its file is an ancestor |
| LoadInliner.Inliner.InlineLoads | fl-build-helper.c:380-448 | the procedure with its two lists computes this and leaves the stack as it found it |
| LoadInliner.Inliner.InlineLine | fl-build-helper.c:414-441 | what one line adds |
| Route.MatchDeterminesPath | runtime/http.c:386-412 | with distinct names, filling the pattern with the bound values gives the path back, up to a query behind it |
| Route.RecoversExactly | runtime/http.c:386-412 | a pattern gives back every path it matches if and only if its names are distinct |
| Route.FilledPatternMatches | runtime/http.c:386-412 | a pattern with distinct names, filled with non-empty slash-free values that fit the buffers, matches and binds exactly those values in order |
| Route.MatchRoute | runtime/http.c:386-412 | the two-cursor loop computes the match, or tells which buffer is overrun, for any route and path |
| Route.ValuesFitExactly | runtime/http.c:400-402 | no route overruns the buffer for values on a path if and only if every segment of it has at most 511 bytes |
| Route.NamesFitExactly | runtime/http.c:397-399 | no path overruns the buffer for names in a route if and only if its parameter names have at most 127 bytes |
| Route.LongSegmentOverruns | runtime/http.c:400-402 | the route `/:a` on a path with a segment of 512 bytes |
| Route.ReadSegment | runtime/http.c:397-403 | copies up to the next slash and ends with a NUL, if and only if both fit the buffer |
| Metadata.PipelineKeepsPackages | fl-resolve-deps-profiles.c:820-835 | what one program writes, the other reads without overflow: as many packages in the same order; they are the same if and only if no string holds a control byte other than the five with short escapes |
| Metadata.QuotedReadsBack | fl-generate-user-fns.c:153-214 | any written string is read as itself with each such byte as a question mark |
| Metadata.SurvivesExactly | fl-resolve-deps-profiles.c:783-818 | a string survives if and only if it holds none of them |
| Metadata.GuardIsExact | fl-resolve-deps-profiles.c:390-395 | the guard refuses a digit if and only if it would lead past LLONG_MAX |
| Metadata.GuardAcceptsExactly | fl-resolve-deps-profiles.c:375-404 | the guarded reader accepts exactly the magnitudes up to LLONG_MAX without fraction or exponent, and the unguarded one overflows on exactly the others |
| Metadata.ObjectReadsBack | fl-generate-user-fns.c:356-438 | one package object, field by field |
| Metadata.Out.JsonEscapePut | fl-resolve-deps-profiles.c:783-818 | the loop writes the escaped string |
| Metadata.OutputMetadata | fl-resolve-deps-profiles.c:820-835 | the writer produces the text the results above are about |
| Metadata.Parser.ReadString | fl-generate-user-fns.c:153-214 | the loop over the cursor and the growing buffer, on any text |
| Metadata.Parser.ReadInteger | fl-generate-user-fns.c:305-329 | sign and digits on any text, up to the first digit that overflows |
| Metadata.Parser.ReadGuarded | fl-resolve-deps-profiles.c:375-404 | no intermediate value leaves the range |
| Metadata.Parser.ReadObject | fl-generate-user-fns.c:356-438 | value and position on any text, unknown fields skipped, or that a number in it overflows |
| Metadata.ReadList | fl-generate-user-fns.c:440-504 | the whole list reader on any text: packages without a package name are dropped, other missing fields get defaults |
| Strings.JoinOfSplit | runtime/math.c:66-94 | joining the pieces with the separator gives the text back |
| Strings.SplitOfJoin | runtime/math.c:66-94 | for any separator, splitting a joined list gives the list back if and only if it is not empty and the separator occurs neither in the last piece nor in another one followed by all but the separator's last character |
| Strings.SplitOfJoinChar | runtime/math.c:66-94 | with one character as separator: if and only if the list is not empty and no piece holds it |
| Strings.ReplaceIsSplitThenJoin | runtime/math.c:43-94 | replacing is splitting at the pattern and joining with the replacement: leftmost, not overlapping |
| Strings.ReplaceIsSubstitute | runtime/math.c:43-65 | for a one-character pattern: character by character |
| Strings.StrReplace | runtime/math.c:43-65 | the loop with its growing buffer computes this, every write inside the buffer |
| Strings.SplitLoop | runtime/math.c:66-78 | the search loop computes the pieces for every separator with which it ends |
| Strings.SplitEndsExactly | runtime/math.c:66-78 | it ends if and only if the separator is not empty |
| Strings.EmptySeparatorStays | runtime/math.c:66-78 | n turns with the empty separator add n empty pieces and leave the cursor where it was |
| Strings.JoinLoop | runtime/math.c:79-94 | the two passes fill a buffer of exactly the length summed with the joined texts, anything but a string counting as empty |
| NestedMaps.GetAfterAssoc | runtime/aliases.c:828-840 | what is written on a path is read back, whatever stood on the way |
| NestedMaps.OthersAfterAssoc | runtime/aliases.c:828-840 | a path that is no prefix or continuation of the written one reads as before |
| NestedMaps.AssocAgreesExactly | runtime/aliases.c:1600-1614 | `assoc_in` and `fl_assoc_in` give the same value except on the empty path with a different value |
| NestedMaps.UpdatesAgree | runtime/aliases.c:1616-1632 | both updates are the same function on string paths and read back as the function of what was there |
| NestedMaps.UpdateIsAssoc | runtime/aliases.c:843-856 | an update is a read, the function, and a write |
| NestedMaps.GetInLoop | runtime/aliases.c:639-648 | the loop reads what the path leads to, nil past anything that is not a map |
| FLValue.GetAfterSet | runtime/collection.c:169-208 | setting a string key reads back and disturbs no other |
| FLValue.KeyIndex | runtime/collection.c:169-177 | the first entry with an equal key, or that there is none |

## Left out

- CompilerTheorem.CompilationPreservesMeaning: its conditions on names (every variable bound, no name in its own initialiser, free spellings apart from each other and from everything at file level, no shadowed loop variable, recur arity) are sufficient; inputs that fail show why they are there (CompilerFailures), and clashes inside one `let` or `loop` are excluded exactly (CompilerLimits), but a name that is never read does no harm. `globals` stands for the functions a file defines or calls and the macros of its headers.
- CompilerCorrectness.CorrectLetBody: expressions before the last one of a `let` inside a loop have no other effect in the model than to throw or not to end.
- The emitted C is a tree of expressions, statements and scopes, not text; its identifiers are spellings. Functions have a name space of their own in the model, which CompilerNames.EmittedIsClear justifies. The order in which C evaluates the arguments of a call does not matter because they have no effects.
- A missing body, an odd `cond` whose first clause is not a bracketed pair, and `loop` without a vector compile to nil in the source; the model starts from well-formed trees.
- Closures (`cgc_fn`), top-level definitions, `set!` and `while`, hoisting, forward declarations, and the long operator table beyond arithmetic, comparison, logic and control.
- Arithmetic of the runtime inside compiled programs: operators are a parameter that may throw, floats are exact reals; a literal is carried as its value, which CompilerSource.LiteralDenotes justifies.
- CompilerSource.LowerBack: a program is read from a single expression; number literals with a dot, `:true`, forms with missing or superfluous parts and the rest of the table of `cgc_dispatch` (a parameter, by name) are refused.
- Escape.EmittedLiteralDenotes: octal and hexadecimal escapes never occur; trigraphs, which C11 would replace before, are taken to be off.
- Lexer, TokenParser: positions are kept on tokens but not on tree nodes.
- TokenParser.ParserKeepsEveryToken: named blocks open with their own tokens and are excluded, as are `@` and `try`, which lose tokens; template strings are not excluded: the node of one holds its token's text.
- Strings.SplitLoop: the method is stated for separators that are not empty, since on the empty one the loop does not end (Strings.SplitEndsExactly); `str_replace` returns its input there and is covered.
- Text is a sequence of bytes without NUL, except where a NUL is the point (JSON strings).
- Jit: only the instructions the four patterns use; caches, memory protection, the pool's lock, the statistics, and `emit_sub` and `emit_neg`, which no builder calls.
- Arena.RunsSound: `malloc` always succeeds and hands out 8-aligned memory apart from all other chunks; the sums do not wrap around at 2^64; the two debug counters are not kept.
- AtomHeap.RcHeap.CopyValue: an address is never reused, allocation always succeeds, a closure's captured values are not followed (as in the source), and values of tag vector with a null object do not occur; `fl_heap_retain` is not modelled.
- Atoms.AtomReset: called on an atom; on anything else the source returns nil.
- NetRegistry.EveryInterleaving: the kernel hands out only descriptors that are not open; generations do not wrap around at 2^64; the kind of a descriptor plays no part; the waits under the lock are steps that become enabled.
- WorkerPool.EveryRun: connections are numbered as they are accepted rather than by descriptor; the timed wait before joining, the handling of a request and the failure to start a thread are left out.
- JsonTexts.StringifyThenParse: floats with a fraction, numbers beyond 2^53, exponents and the rest of `strtod` are not modelled; keys are strings; `fl_json_try_parse` is the same parser behind a handler.
- JsonBuffers.StringifyStr: `realloc` always succeeds; after a write outside the buffer nothing more is said.
- JsonLimits.ParserFollowsScan: on a text with a number outside the model (a fraction, an exponent, more than 2^53) both the parser and the pass stop there, and nothing is said about the rest.
- Utf8.NextOfEncode: what `utf8_next` does with bytes that encode nothing is modelled but nothing is promised about it; the glyph lookup is left out.
- WebSocket.Connection.ReadOne: the socket is a sequence of bytes that may end anywhere; TLS, the handshake and the failure of a send are left out.
- LoadInliner.BuildIsComplete: files are numbers, so the normalisation of paths and the recognition of load lines, debug lines and the module form are parameters of the graph; an unreadable file is a number outside the graph, and empty lines are already gone.
- Route.MatchRoute: after a write outside a buffer the model says which one and nothing more.
- Metadata.Parser.ReadInteger: an overflow is undefined in C; the model says so and nothing beyond it.
- Metadata.PipelineKeepsPackages: a missing string is written as the empty one and modelled so; argument counts are those the first program's own reader accepts.
- NestedMaps.UpdatesAgree: the function given to an update is total; one that throws is not modelled.
- Futures, `try` and `longjmp`, regular expressions, sorting, the vector builder, HTTP parsing, TLS, databases, mail and PDF output.
