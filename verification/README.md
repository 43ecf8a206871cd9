# Proofs about the BackSlash machines

This project models the hard parts of four of the BackSlash projects in Dafny and proves properties of them. Programs,
tables and files are values; what the originals change in place (the parser's position, the label tables, the image,
the code-map arrays, the ring buffers, the clock's digits, the surfaces) is a class whose methods are proved equal to a
specification function, and the theorems are about that function. Threads are atomic steps of a state machine, with
spurious wake-ups and the behaviour of the terminal as nondeterminism.

`dafny verify dfyconfig.toml` checks everything.

## What is modelled and proved

**BackSlash 9 toolchain.** `Bs9Isa` is a small semantics of the instructions the compiler emits, taken from the two
README files and the assembler's tables; it has no step outside the code and none that accesses data inside it.
`Bs9Source` is an interpreter of the language, with recursion, a stack budget and the 16-bit arithmetic of the
machine. `Bs9Gen` compiles trees to the compiler's operations; `Bs9Exec` runs the templates; `Bs9Correct` proves
expressions, statements, calls and recursion by induction over the source run; `Bs9Program` closes the proof for a
whole program. `Bs9Lower` and `Bs9Layout` are the two lowering passes and show that every label lies where the proof
needs it, `Bs9Final` is the lowering in place, and `Bs9Link` proves when the printed text assembles to the words whose
run is proved about. Label names are any texts there, looked up exactly as in the compiler and without regard to
letter case as in the assembler; `Bs9Texts` has the compiler's own texts. `Bs9Token`, `Bs9Parse`, `Bs9ParseOk`,
`Bs9ParseStmt` and `Bs9ParseProgram` prove that the fused parser and code generator is tree compilation on the sentences
of a grammar with one level for each group of operators; `Bs9Parser` is that parser in place. `Bs9Defined` and `Bs9Compile` put the pieces together: `TokensToRun`
goes from tokens to the halted machine. `Bs9Asm`, `Bs9AsmAgree`, `Bs9AsmRun` are the two-pass assembler, `Bs9Dis`
the disassembler with the round trip, and `Bs9Forms` the meaning of every accepted operand list.

**BackSlash 5 microprograms.** `Bs5Isa` is the core instruction set, `Bs5Micro` every composite instruction with its
expansion and, separately, the effect its comment promises. `Bs5Ok` and `Bs5Run` prove that the expansion has that
effect under every condition, and exactly when; `Bs5Program` is the assembler's memory in place.

**BackSlash 3.** `ConsoleIn`, `ConsoleOut` and `Ring` are the console's threads, locks and rings; `Irq` the interrupt
queue. `CodeMap` to `CodeMapLoad` are the code-map files: save, load and embed, in both formats. `Reloc`, `RelocOk`,
`Bs3Cpu` and `RelocRun` follow a label from pass 2 of the assembler to the executed jump; `Bs3Compare` is what the
conditional jumps mean after a comparison. `Rtc` proves the carry
cascade of the clock against a calendar, `Gfx` and `GfxRun` the transfers and blits between the surfaces.

## What the proofs found

Where the code does not do what its documentation says, the model follows the code, and the exact condition under which
the promise is kept is proved where there is one.

- BackSlash 9 compiler: `return e` jumps through R0, so a call's value is always the address of the epilogue
  (bslash9cc.c:782-785); parameters are spilled as the constants 1, 2, ... (833-842); the start-up code overwrites
  R0 after `main` returns.
- BackSlash 9 compiler: the line printed at 808 keeps `__bool_true` in front of its target, so a program with `==`, `!=`,
  `<` or `>=` compiles but its text does not assemble, unless a function of that name, in any letter case, lies at address
  122 or before; then it assembles to other words. The assembler ignores letter case and the compiler does not: functions
  `foo` and `Foo` compile, and their text is refused. Calls are not checked for a declaration, and labels are found by text
  alone: a call of an undeclared `__main_ret` compiles. With names that do not both start with `_` and end with `t` or a
  digit this cannot happen. Of two functions of one name the first counts; the text of such a program is refused too.
- BackSlash 9 assembler: the word written for `JMP` (0x18C0) is not the one in BackSlashNine.txt:85-88; by the instruction
  table it is a shift. Line 388 drops a special instruction with a 4-bit immediate and the wrong number of operands without
  an error. Disassembly loses shift words whose destination is R12 to R15, and only these.
- BackSlash 5: lines 1574 and 1890 load the base where they should add it. The word below the stack pointer is scratch, so
  an operand there is read after it was overwritten. After a subtraction the unsigned condition names mean their opposites.
  Under the condition `no`, `fl mov R0, imm16` still sets flags.
- BackSlash 3 console: the second output never becomes ready again after its first flush (dev_bs3inout.c:368).
- BackSlash 3 processor: a comparison with 0 never sets the carry, so no word is above or equal to 0; a comparison with an
  immediate takes its sign the wrong way round, so 3 is not less than 5 (bs3.c:1616).
- BackSlash 3 code maps: a hexadecimal announcement also changes the ROM bank of the map before it
  (bs3_asm_code_map.c:430-433, 522); a completely full map is saved with length 0 and reads back as empty.
- BackSlash 3 graphics: a blit on one surface is wrong for some contents exactly when its target starts inside the part of
  its source still to be read, which is a condition on the start addresses and sides; overlapping to the other side, or a
  blit of a rectangle onto itself, is right. The one exception is OR or AND without a colour replacement with the
  rectangles half a surface apart.

## Model

| member | source | states |
|---|---|---|
| `Words.OrNibbles` | BackSlashNine/bslash9cc.c:773-780 | The four words AR0, CPY, AR0, OR build any 16-bit constant: twelve high bits shifted, four low bits or-ed in. |
| `Words.XorIsComplement` | BackSlashNine/bslash9cc.c:483-488 | XOR with 0xFFFF is the one's complement, as `~` promises. |
| `Bs9Isa.StuckIsUnique` | BackSlashNine/README_bslash9asm.md:255-297 | The machine is deterministic: a run that can go no further has one end state, so "the" result of a run exists. |
| `Bs9Source.ComparisonsAreExact` | BackSlashNine/bslash9cc.c:805-820 | What the flag tests mean: == and != are equality of words; <, <=, >, >= are the signed comparison exactly when the signed difference fits in 16 bits. |
| `Bs9Exec.ConstOk` | BackSlashNine/bslash9cc.c:351-356 | Running the constant template from any state leaves the constant in R0 and changes R1 only, besides flags and position. |
| `Bs9Exec.GotoOk` | BackSlashNine/bslash9cc.c:782-785 | An absolute jump arrives at its target with the target address left in R0 and the address after it in R11. |
| `Bs9Exec.JumpIfZeroOk` | BackSlashNine/bslash9cc.c:787-794 | The conditional absolute jump is taken exactly when R0 is 0, and otherwise falls through to the word after the template. |
| `Bs9Exec.PushOk` | BackSlashNine/bslash9cc.c:358-361 | Push writes R0 to the word below the old stack pointer and moves the pointer there. |
| `Bs9Exec.PopOk` | BackSlashNine/bslash9cc.c:363-366 | Pop takes the word at the stack pointer and moves the pointer up. |
| `Bs9Exec.FlagOk` | BackSlashNine/bslash9cc.c:805-820 | The ten-word comparison text leaves 1 in R0 exactly when the flag condition holds, else 0. |
| `Bs9Exec.BoolNotOk` | BackSlashNine/bslash9cc.c:915-930 | Logical not: R0 becomes 1 if it was 0, else 0, by jumps that stay inside the template. |
| `Bs9Exec.BoolLeOk` | BackSlashNine/bslash9cc.c:937-953 | <= from the flags of a subtraction: 1 exactly if the difference is negative or zero. |
| `Bs9Exec.BoolGtOk` | BackSlashNine/bslash9cc.c:954-976 | > from the flags of a subtraction: 1 exactly if the difference is neither negative nor zero. |
| `Bs9Exec.ReadVarRuns` | BackSlashNine/bslash9cc.c:368-373 | Reading a slot of the frame or a fixed address puts its word into R0 and leaves R9 and R10 alone. |
| `Bs9Exec.WriteVarRuns` | BackSlashNine/bslash9cc.c:375-396 | Writing a slot or a fixed address stores R0 there and changes no other word. |
| `Bs9Correct.ExprOk` | BackSlashNine/bslash9cc.c:410-587 | Expression compiler correctness, for every expression of any depth, calls and recursion included: from any state whose memory agrees with the source memory the emitted words run to their end, R0 is the 16-bit value, R9 and R10 are as before, and no word at or above R10 has changed but the slots and addresses assigned. |
| `Bs9Correct.ArgsOk` | BackSlashNine/bslash9cc.c:439-456 | Arguments are evaluated from left to right and their values lie on the stack, one word each, last on top; the caller's words above are unchanged. |
| `Bs9Correct.CompareOk` | BackSlashNine/bslash9cc.c:805-820 | Each comparison operator's code turns left and right operand into the truth value the source semantics gives. |
| `Bs9Correct.SpillsOk` | BackSlashNine/bslash9cc.c:833-842 | What really happens to parameters: whatever the arguments were, parameter k is stored as the constant k + 1. |
| `Bs9Correct.StmtOk` | BackSlashNine/bslash9cc.c:611-656 | Statement correctness: for every statement and every terminating source execution the emitted words run either to the end of the statement or, after a `return`, to the function's end label, with the same memory and frame. |
| `Bs9Correct.WhileOk` | BackSlashNine/bslash9cc.c:640-650 | A loop of any number of rounds: the words from the loop's top reach its end with the memory of the source loop, by induction over the rounds the source takes. |
| `Bs9Correct.RetOk` | BackSlashNine/bslash9cc.c:903-910 | The epilogue restores R10, R11 and R9 from the frame, although every jump in the body overwrote R11, and goes to the restored R11. |
| `Bs9Correct.PrologueOk` | BackSlashNine/bslash9cc.c:822-842 | The prologue builds a frame of the declared size just below the caller's stack. |
| `Bs9Correct.InvokeOk` | BackSlashNine/bslash9cc.c:822-984 | A call of any function, recursive ones included, returns just past the call site with R9 and R10 restored, nothing at or above the caller's stack pointer changed, and all other memory as the source call leaves it. |
| `Bs9Program.ProgramOk` | BackSlashNine/bslash9cc.c:988-1010 | The run from address 0 of a loaded program reaches the halt address 0xFFFF and stops there with the memory of the source run, the stack pointer where the start-up code put it, and R0 holding not the value of main but the halt address. |
| `Bs9Program.ReturnedValueIsLost` | BackSlashNine/bslash9cc.c:782-785 | `return e` delivers the address of the epilogue, because the jump to it loads R0: the promised value arrives if and only if it equals that address. |
| `Bs9Program.QuietProgramOk` | BackSlashNine/bslash9cc.c:611-656 | Programs that use no call's value and pass no arguments do what the language promises, returns included. |
| `Bs9Program.SevenIsNotStored` | BackSlashNine/bslash9cc.c:611-630 | A concrete program of the other kind: it should store 7 and stores something else wherever it is loaded. |
| `Bs9Ops.ExpandSize` | BackSlashNine/bslash9cc.c:704-726 | The size pass 1 reserves for every operation is the number of words pass 2 writes for it. |
| `Bs9Lower.PassesAgree` | BackSlashNine/bslash9cc.c:822-986 | For every operation list: pass 2 emits as many words as pass 1 counted, for the whole list and for every prefix of it. |
| `Bs9Layout.RecordedIsEmitted` | BackSlashNine/bslash9cc.c:844-852 | At the first label of a text pass 2 has emitted exactly as many words as the address pass 1 recorded for that text, modulo 65536. |
| `Bs9Layout.RecordGrows` | BackSlashNine/bslash9cc.c:733-743 | The label table only grows, never rebinds a text, and finds exactly the labels whose text is that of a mark. |
| `Bs9Layout.SegmentOk` | BackSlashNine/bslash9cc.c:822-986 | Any part of the program whose labels are new, their texts included, lies in the final words at its place, whatever comes before and after. |
| `Bs9Layout.MarksStmt` | BackSlashNine/bslash9cc.c:333-336 | Label numbering: the labels of a statement are different from one another and numbered inside the interval the statement uses up. |
| `Bs9Layout.FunctionPlaced` | BackSlashNine/bslash9cc.c:822-986 | If the labels have different texts, every function that is the first of its name lies in the program as the correctness proof needs it. |
| `Bs9Layout.CompiledIsLoaded` | BackSlashNine/bslash9cc.c:988-1010 | A program that lowers without an error, whose labels have different texts and that fits below its stack meets every hypothesis of the correctness theorem; of equal function names the first counts. |
| `Bs9Layout.CompilerOk` | BackSlashNine/bslash9cc.c:988-1010 | Compiler correctness from the tree to the run of the emitted words; of the layout nothing is assumed but different texts for different labels. |
| `Bs9Defined.LowersIff` | BackSlashNine/bslash9cc.c:767-771 | The compiler produces a program if and only if the text of main and of every called name is the text of some label it makes, a function's or one of its own; in no other case does it stop with an unknown label. |
| `Bs9Defined.LowersIfDeclared` | BackSlashNine/bslash9cc.c:767-771 | If no called name is the text of another label, that is the case if and only if main and every called function are declared. |
| `Bs9Defined.ProgramLabels` | BackSlashNine/bslash9cc.c:260-269 | All labels of a program are different if and only if no two of its functions have one name. |
| `Bs9Final.Final.FindLabel` | BackSlashNine/bslash9cc.c:733-736 | The index of the first entry with a text, or -1. |
| `Bs9Final.Final.AddLabel` | BackSlashNine/bslash9cc.c:738-743 | The label list grows at its end by the text and the address. |
| `Bs9Final.Final.EmitOp` | BackSlashNine/bslash9cc.c:853-984 | One operation in place: the words and lines appended are those of the specification, or the error is the one it names. |
| `Bs9Final.Final.RecordFunction` | BackSlashNine/bslash9cc.c:844-852 | Pass 1 over a function, in place, leaves the table and position of the specification. |
| `Bs9Final.Final.EmitFunction` | BackSlashNine/bslash9cc.c:822-986 | Pass 2 over a function, in place, appends exactly the specified items or stops where the specification does. |
| `Bs9Final.Final.LowerProgram` | BackSlashNine/bslash9cc.c:988-1010 | Both passes in place produce exactly the specified program; the exit for a size mismatch between the passes is never taken. |
| `Bs9Link.WordSays` | BackSlashNine.txt:25-88 | The words are the instructions whose run is proved about: read field by field by the instruction table, conditions by their numbers and jumps as the disassembler reads them, the word of every instruction the compiler uses is that instruction. |
| `Bs9Link.TextReads` | BackSlashNine/bslash9cc.c:761-765 | The line printed for an instruction at an address assembles at that address to that instruction's word; a jump's absolute target becomes the offset it needs. |
| `Bs9Link.XorForms` | BackSlashNine/bslash9asm.c:355-379 | With or without R0 in front, the XOR statement has the word of the machine's XOR of that register. |
| `Bs9Link.TemplateJumps` | BackSlashNine/bslash9cc.c:773-820 | Every jump inside a template stays inside it or leaves it just at its end. |
| `Bs9Link.AssembleItems` | BackSlashNine/bslash9cc.c:745-771 | The text of an operation list whose label names differ in more than letter case assembles if and only if no comparison left its stray name in it or that name is a label not past address 122; the words are those of the code but for the comparisons' first jumps, which then go too far by that address. |
| `Bs9Link.ClashIsRefused` | BackSlashNine/bslash9asm.c:103-118 | Two label names in the text that are equal up to letter case make the assembler's first pass report an error. |
| `Bs9Link.SymbolsAgree` | BackSlashNine/bslash9asm.c:481-571 | The address the assembler finds for a label is the one the compiler recorded for it, and both are the number of words in front of the label. |
| `Bs9Link.ProgramAssembles` | BackSlashNine/bslash9cc.c:805-820 | For every program and naming: the printed text assembles if and only if all label names differ in more than letter case and the program uses none of ==, !=, < and >=, or its stray name, in any letter case, is a label not past address 122; it assembles to exactly the words whose run is proved about if and only if, in the latter case, that address is 0. |
| `Bs9Texts.KeysApart` | BackSlashNine/bslash9asm.c:77-101 | The compiler's own texts: if no function name both starts with an underscore and ends with t or a digit, the assembler takes two labels for one if and only if they are the same label, or functions, or return labels of functions, whose names are equal up to letter case; numbers of any length included. |
| `Bs9Texts.TextsApart` | BackSlashNine/bslash9cc.c:333-336 | To the compiler, for such names, labels with the same text are the same label. |
| `Bs9Texts.PlainNamesDistinct` | BackSlashNine/bslash9cc.c:265-268 | For such programs different labels have different texts, which is the hypothesis of the layout theorems, and no called name is the text of another label. |
| `Bs9Texts.PlainNamesLower` | BackSlashNine/bslash9cc.c:767-771 | Such a program is produced if and only if main and every called function are declared. |
| `Bs9Texts.PlainNamesAssemble` | BackSlashNine/bslash9cc.c:805-820 | Its text assembles if and only if no two functions' names are equal up to letter case, it has no more labels than the assembler holds, and it uses none of ==, !=, < and >= or has a function called like the stray name not past address 122; to exactly its words if and only if it uses none of them. |
| `Bs9Texts.CaseClash` | BackSlashNine/bslash9asm.c:95-107 | A concrete program with functions foo and Foo: compiled, nothing declared twice, no comparison, and its text does not assemble. |
| `Bs9Texts.CaseStray` | BackSlashNine/bslash9cc.c:805-820 | A concrete program with a function __Bool_True and a comparison: its text assembles, to other words than those of the code. |
| `Bs9Texts.PlainNamesCompile` | BackSlashNine/bslash9cc.c:1042-1083 | The hypothesis of the end-to-end theorem holds for it if and only if its tokens parse without error, main and every called function are declared, and the words fit below the stack. |
| `Bs9Texts.ReservedNameLowers` | BackSlashNine/bslash9cc.c:733-743 | A concrete program of the other kind: a call of an undeclared function named like the return label of main is compiled. |
| `Bs9ParseOk.UnaryOk` | BackSlashNine/bslash9cc.c:473-496 | On the tokens of any operand of the grammar (a prefix operator, a primary, a bracketed expression) the fused parser consumes just these tokens and emits the tree compiler's operations. |
| `Bs9ParseOk.LoopOk` | BackSlashNine/bslash9cc.c:545-571 | Parsing from the start of a sentence of a grammar level, with that level's operators allowed, is parsing on after the whole sentence: each level is a left-nested list of the next. |
| `Bs9ParseOk.BinOk` | BackSlashNine/bslash9cc.c:545-571 | The case of an operator of the level: its two operands, the left of the same level and the right of the next, are consumed with it, and parsing goes on after the whole. |
| `Bs9ParseOk.ExprOk` | BackSlashNine/bslash9cc.c:337-347 | Precedence climbing accepts the grammar: for every tree derived by the levels or, xor, and, equality, comparison, sum and unary, written without a precedence table, the parser's operations, label numbers, errors and consumed tokens are those of the separate tree compiler. Parentheses are nodes of the tree. |
| `Bs9ParseOk.Grouping` | BackSlashNine/bslash9cc.c:337-347 | For any three operands and two of the eleven operators, all pairs: `a x b y d` compiles as `a x (b y d)` exactly if y is of a tighter level than x, in the order or, xor, and, equality, comparison, sum, and as `(a x b) y d` otherwise. |
| `Bs9ParseOk.EveryTree` | BackSlashNine/bslash9cc.c:458-471 | Every tree whose calls have names other than the two memory intrinsics has a sentence, the tree with brackets added, that compiles to its code: the grammar loses no program. |
| `Bs9ParseOk.LevelPrec` | BackSlashNine/bslash9cc.c:337-347 | The number the table gives an operator is that of its level, and lower than that of the next tighter level. |
| `Bs9Token.LocalsHide` | BackSlashNine/bslash9cc.c:303-321 | A local is found in the first slot of its name whatever the globals are, a global only if no local has the name, and any other name is unknown. |
| `Bs9ParseOk.CallOk` | BackSlashNine/bslash9cc.c:439-456 | A printed call: all arguments are compiled, those past the fourth are errors, and at most four are popped. |
| `Bs9ParseStmt.StmtOk` | BackSlashNine/bslash9cc.c:611-656 | Every statement printed and parsed gives the operations of its tree, with labels numbered in the order of the source. |
| `Bs9ParseStmt.StmtsOk` | BackSlashNine/bslash9cc.c:593-609 | The same for the statements and declarations of a block, up to the closing brace. |
| `Bs9ParseProgram.FunOk` | BackSlashNine/bslash9cc.c:673-695 | A printed function gives the unit of its resolved tree: parameters, locals, operations, return label and epilogue. |
| `Bs9ParseProgram.GlobalOk` | BackSlashNine/bslash9cc.c:658-671 | A printed fixed-address global is consumed and defined, or counted as an error if its name is taken. |
| `Bs9ParseProgram.ProgramOk` | BackSlashNine/bslash9cc.c:697-702 | A printed program is consumed to its last token; its errors are those of the tree and its units those of the resolved functions. |
| `Bs9Compile.ParsedProgram` | BackSlashNine/bslash9cc.c:697-702 | The parse of a whole program from its start, and well-formedness of what it yields when no error is reported. |
| `Bs9Compile.TokensToRun` | BackSlashNine/bslash9cc.c:1042-1083 | End to end: the tokens of a program that parse without error, whose called names are texts of labels, all different, and that fits below the stack give words whose run from address 0 halts with the memory of the source run, calls delivering the epilogue addresses of exactly those words. |
| `Bs9Compile.QuietTokensToRun` | BackSlashNine/bslash9cc.c:1042-1083 | The same for programs that use no call's value and pass no arguments, with the memory the language promises. |
| `Bs9Parser.Parser.GenPrimary` | BackSlashNine/bslash9cc.c:410-471 | The in-place parser of primary expressions changes position, operations, labels and errors exactly as the specified parser does. |
| `Bs9Parser.Parser.GenUnary` | BackSlashNine/bslash9cc.c:473-496 | The in-place unary parser equals the specified one. |
| `Bs9Parser.Parser.GenPrec` | BackSlashNine/bslash9cc.c:545-571 | The in-place precedence-climbing loop equals the specified one for every token list, well formed or not. |
| `Bs9Parser.Parser.GenExpr` | BackSlashNine/bslash9cc.c:573-587 | The in-place assignment parser equals the specified one. |
| `Bs9Parser.Parser.GenCall` | BackSlashNine/bslash9cc.c:439-456 | The in-place call parser equals the specified one. |
| `Bs9Parser.Parser.ParseStatement` | BackSlashNine/bslash9cc.c:611-656 | The in-place statement parser equals the specified one. |
| `Bs9Parser.Parser.ParseBlock` | BackSlashNine/bslash9cc.c:593-609 | The in-place block parser equals the specified one. |
| `Bs9Parser.Parser.ParseDeclaration` | BackSlashNine/bslash9cc.c:593-609 | The in-place parser of local declarations equals the specified one. |
| `Bs9Parser.Parser.ParseFunction` | BackSlashNine/bslash9cc.c:673-695 | The in-place function parser equals the specified one. |
| `Bs9Parser.Parser.ParseGlobal` | BackSlashNine/bslash9cc.c:658-671 | The in-place parser of globals equals the specified one. |
| `Bs9Parser.Parser.ParseProgram` | BackSlashNine/bslash9cc.c:697-702 | The in-place program parser equals the specified one on every token list. |
| `Bs9AsmAgree.EvalStable` | BackSlashNine/bslash9asm.c:141-188 | An expression that has a value keeps it when labels are added, so pass 2 sees the value pass 1 saw. |
| `Bs9AsmAgree.FirstExtends` | BackSlashNine/bslash9asm.c:481-571 | The first pass only ever extends the label table. |
| `Bs9AsmAgree.SecondIs` | BackSlashNine/bslash9asm.c:573-621 | The second pass succeeds exactly on clean lines; memory then holds each line's words at its place and nothing else. |
| `Bs9AsmAgree.PlacedFits` | BackSlashNine/bslash9asm.c:466-479 | With the final labels a line writes exactly as many words as the first pass reserved, or none if it vanishes (line 388). |
| `Bs9AsmAgree.PassAgreement` | BackSlashNine/bslash9asm.c:481-646 | Pass agreement: a source assembles if and only if the first pass reports nothing, every line has contents under the final labels and no two lines write one address; then each line's words lie where the first pass put it, every other output word is 0 and the output ends with a written word. |
| `Bs9AsmAgree.AssembleWords` | BackSlashNine/bslash9asm.c:573-646 | A source of one word per line assembles if and only if no line is rejected, and then to the words in order. |
| `Bs9Forms.EncodeSays` | BackSlashNine/bslash9asm.c:297-464 | For every mnemonic and any operands: a statement is encoded as a word if and only if the fields of that word, taken apart as the instruction set lays them out, say what the operands do. So each accepted statement has one word, and one is refused only if no word says it. For AR0 the word leaves the operand in R0, by the semantics of the machine, with the shift as written or, unwritten, used only where it is needed. |
| `Bs9Forms.Ar0Accepts` | BackSlashNine/README_bslash9asm.md:285-302 | AR0 with one operand is accepted if and only if the value is 0 to 4095, or below 65536 with a low nibble of 0; with two if and only if the shift is 0 or 1 and the value is in that shift's range; and otherwise it is an error. |
| `Bs9Forms.ImplicitForms` | BackSlashNine/bslash9asm.c:355-379 | `XOR R0, Rx` and `SAR R0, Rx` are the forms without R0, and any other first register is refused. |
| `Bs9Forms.DroppedIs` | BackSlashNine/bslash9asm.c:386-393 | A statement leaves neither a word nor a message if and only if it is a 4-bit immediate instruction without exactly one operand. |
| `Bs9Forms.SumOfTwo` | BackSlashNine/bslash9asm.c:141-188 | The value of two lists of terms one after the other is the sum of their values. |
| `Bs9Forms.Distance` | BackSlashNine/README_bslash9asm.md:352-369 | `end - start` is the difference of the two labels' addresses, in any letter case, and an error if one is unknown. |
| `Bs9AsmRun.CompareNames` | BackSlashNine/bslash9asm.c:77-85 | The comparison loop gives 0 exactly for names that are equal up to letter case. |
| `Bs9AsmRun.Asm.FindLabel` | BackSlashNine/bslash9asm.c:95-101 | The search over the label list gives the index of the label of that name in any letter case, with the value the table has for it, or -1. |
| `Bs9AsmRun.Asm.AddLabel` | BackSlashNine/bslash9asm.c:103-118 | The label list in place: a new name is appended, a name that is there already in any letter case is an error and rebinds nothing. |
| `Bs9AsmRun.Asm.FirstPass` | BackSlashNine/bslash9asm.c:481-571 | The first pass in place leaves the specified labels, lines and errors. |
| `Bs9AsmRun.Asm.EmitWord` | BackSlashNine/bslash9asm.c:279-287 | A word is stored in a free cell of the image, or an error reported. |
| `Bs9AsmRun.Asm.EmitLine` | BackSlashNine/bslash9asm.c:573-621 | One line of the second pass in place equals the specified one, whose words Bs9Forms.EncodeSays pins down. |
| `Bs9AsmRun.Asm.SecondPass` | BackSlashNine/bslash9asm.c:573-621 | The second pass in place equals the specified one. |
| `Bs9AsmRun.Asm.Output` | BackSlashNine/bslash9asm.c:623-646 | The output runs to the highest used word, unused words as 0. |
| `Bs9AsmRun.Asm.Run` | BackSlashNine/bslash9asm.c:659-680 | Both passes and the output in place give exactly the specified image, or none. |
| `Bs9Dis.CollectLabels` | BackSlashNine/bslash9dis.c:175-187 | The loop marks exactly the addresses that some jump word of the image targets. |
| `Bs9Dis.Disassemble` | BackSlashNine/bslash9dis.c:93-173 | The loop prints exactly the specified line for every word. |
| `Bs9Dis.PrintedEncodes` | BackSlashNine/bslash9asm.c:297-464 | The instruction printed for a word that is not unsafe encodes to that word again, for every word. |
| `Bs9Dis.JmpEncodes` | BackSlashNine/bslash9dis.c:84-91 | A jump word printed with a target label encodes to itself at its address. |
| `Bs9Dis.RoundTrip` | BackSlashNine/bslash9dis.c:93-187 | Disassembling and reassembling gives the same image if and only if no word is unsafe, that is, no word but AR0 has operation 6 or 7 with destination R12 to R15. |
| `Bs9Dis.JmpIsAShift` | BackSlashNine/bslash9asm.c:297-345 | Every word the assembler writes for JMP decodes, by the instruction table, as a shift of R6 or R7 and not as a jump. |
| `Bs5Micro.ComparisonMeaning` | BackSlashFive/bs5_asm/src/main/java/backslash/bs5/asm/BS5program.java:352-406 | What the condition names mean after a subtraction: signed ones are the signed comparison, unsigned ones the opposite of their names, since the carry is a borrow. |
| `Bs5Micro.NamesMean` | BackSlashFive/bs5_asm/src/main/java/backslash/bs5/asm/BS5program.java:352-406 | All eighteen condition names, in terms of the five flags a machine word sets: what must hold of carry, zero, X, overflow and sign for each to be met. |
| `Bs5Ok.LineFlags` | BackSlashFive/bs5_asm/src/main/java/backslash/bs5/asm/BS5program.java:504-738 | The flags after any core instruction used in a microprogram, for each marking: additions, subtractions, increments, decrements, shifts, and, or and not set them unless marked nf; moves of words and bytes and the relative jump only if marked fl. |
| `Bs5Run.SkipIsBody` | BackSlashFive/bs5_asm/src/main/java/backslash/bs5/asm/BS5program.java:746-750 | For every composite instruction the length given to the prologue is the length of its body, 12 words at most. |
| `Bs5Run.BodyOk` | BackSlashFive/bs5_asm/src/main/java/backslash/bs5/asm/BS5program.java:761-2545 | Every body, run from any state, leaves the state the comment over its method promises, but for R0 and scratch, if and only if the promise can be kept there: an operand in the scratch word below the stack pointer holds the value saved there anyway, and, for the two instructions that lose their index, both addresses hold the value already. |
| `Bs5Run.PrologueRuns` | BackSlashFive/bs5_asm/src/main/java/backslash/bs5/asm/BS5program.java:746-750 | The two-word skip in front enters the body if the condition is met and passes just over it otherwise; besides, only the X flag changes. |
| `Bs5Run.MicroOk` | BackSlashFive/bs5_asm/src/main/java/backslash/bs5/asm/BS5program.java:761-2545 | Microprogram preservation, for every composite instruction, condition, flag marking and state: if the condition fails only the position and the X flag change; if it holds the run ends in the promised state, R1 included, but for R0 and the one scratch word below the stack pointer, if and only if the promise can be kept, which is decided by the state before. |
| `Bs5Run.CallReaches` | BackSlashFive/bs5_asm/src/main/java/backslash/bs5/asm/BS5program.java:1279-1378 | Every call leaves the address after the whole expansion on the stack and goes to its target. |
| `Bs5Run.CallAndReturn` | BackSlashFive/bs5_asm/src/main/java/backslash/bs5/asm/BS5program.java:1210-1378 | A call, any callee that brings back the stack pointer and its word, and `mov R15, STACK`: execution resumes just after the call with the stack pointer restored. |
| `Bs5Run.GuardedRuns` | BackSlashFive/bs5_asm/src/main/java/backslash/bs5/asm/BS5program.java:352-406 | A single word under any condition, with its flag-moving word in front where the condition is a derived one. |
| `Bs5Run.MovR0Ok` | BackSlashFive/bs5_asm/src/main/java/backslash/bs5/asm/BS5program.java:963-976 | `mov R0, imm16`, whose words are guarded one by one, loads R0 exactly if the condition is met, with the flags of one move. |
| `Bs5Ok.ThroughOk` | BackSlashFive/bs5_asm/src/main/java/backslash/bs5/asm/BS5program.java:791-1067 | The instructions that work through R0 on any register: result, flags and scratch. |
| `Bs5Ok.LogicOk` | BackSlashFive/bs5_asm/src/main/java/backslash/bs5/asm/BS5program.java:1069-1137 | and/or with an immediate or a memory word: result and flags, R1 restored. |
| `Bs5Ok.PushOk` | BackSlashFive/bs5_asm/src/main/java/backslash/bs5/asm/BS5program.java:1139-1208 | The four pushes put the value on the stack and move the pointer. |
| `Bs5Ok.PopOk` | BackSlashFive/bs5_asm/src/main/java/backslash/bs5/asm/BS5program.java:1210-1228 | The pop into a register takes the top of the stack and moves the pointer. |
| `Bs5Ok.PopAtImmOk` | BackSlashFive/bs5_asm/src/main/java/backslash/bs5/asm/BS5program.java:1253-1277 | The pop to an immediate address, which spills R1 below the stack, if and only if harmless. |
| `Bs5Ok.CallOk` | BackSlashFive/bs5_asm/src/main/java/backslash/bs5/asm/BS5program.java:1279-1378 | The calls through a register, memory, an immediate and a short offset. |
| `Bs5Ok.WriteOk` | BackSlashFive/bs5_asm/src/main/java/backslash/bs5/asm/BS5program.java:1382-2011 | The writes relative to the stack pointer or frame, from every kind of source, if and only if harmless. |
| `Bs5Ok.LostIndexOk` | BackSlashFive/bs5_asm/src/main/java/backslash/bs5/asm/BS5program.java:1570-1592 | Lines 1574 and 1890 load the base where they should add it, so the value goes to the base address: the promise is kept if and only if the intended word held the value before and the word at the base address is not changed. |
| `Bs5Ok.ReadToRegOk` | BackSlashFive/bs5_asm/src/main/java/backslash/bs5/asm/BS5program.java:2013-2398 | The reads relative to the stack pointer or frame into a register: value, flags and everything unchanged. |
| `Bs5Ok.ReadToAtRegOk` | BackSlashFive/bs5_asm/src/main/java/backslash/bs5/asm/BS5program.java:2013-2398 | The reads relative to the stack pointer or frame into the word a register points at. |
| `Bs5Ok.ReadAtImmOk` | BackSlashFive/bs5_asm/src/main/java/backslash/bs5/asm/BS5program.java:2053-2075 | The reads into an immediate address, if and only if harmless. |
| `Bs5Ok.AddTopOk` | BackSlashFive/bs5_asm/src/main/java/backslash/bs5/asm/BS5program.java:2422-2437 | add of the two top stack words. |
| `Bs5Ok.SubTopOk` | BackSlashFive/bs5_asm/src/main/java/backslash/bs5/asm/BS5program.java:2439-2453 | sub of the two top stack words, in this order. |
| `Bs5Ok.AndTopOk` | BackSlashFive/bs5_asm/src/main/java/backslash/bs5/asm/BS5program.java:2491-2516 | and of the two top stack words, through R1, which is restored. |
| `Bs5Ok.OrTopOk` | BackSlashFive/bs5_asm/src/main/java/backslash/bs5/asm/BS5program.java:2518-2538 | or of the two top stack words, through R1, which is restored. |
| `Bs5Program.BlockPlaced` | BackSlashFive/bs5_asm/src/main/java/backslash/bs5/asm/BS5program.java:333-345 | Words are placed without an error exactly if their addresses are free and in memory, lie then at the address they started at, and change nothing else. |
| `Bs5Program.LinesStay` | BackSlashFive/bs5_asm/src/main/java/backslash/bs5/asm/BS5program.java:333-345 | If assembly reports no error, every line's words lie where the line stood, whatever was assembled after it. |
| `Bs5Program.Program.AddMemoryCell` | BackSlashFive/bs5_asm/src/main/java/backslash/bs5/asm/BS5program.java:333-345 | One word in place: stored at the position if that is free and in range, else one more error and nothing changed. |
| `Bs5Program.Program.ConditionPrefix` | BackSlashFive/bs5_asm/src/main/java/backslash/bs5/asm/BS5program.java:352-407 | The flag-moving word is added exactly for derived conditions, and the returned condition tests the flag moved. |
| `Bs5Program.Program.AddPrologue` | BackSlashFive/bs5_asm/src/main/java/backslash/bs5/asm/BS5program.java:746-758 | The prologue in place is the specified one. |
| `Bs5Program.Program.AddMicro` | BackSlashFive/bs5_asm/src/main/java/backslash/bs5/asm/BS5program.java:761-2545 | A composite instruction in place adds exactly the words of the specification, prologue and body. |
| `Bs5Program.Program.AddSource` | BackSlashFive/bs5_asm/src/main/java/backslash/bs5/asm/BS5program.java:352-2545 | A source line in place adds exactly the words of the specification. |
| `ConsoleIn.InvRun` | BackSlashThree/dev_bs3inout.c:205-256 | The invariant of the input handshake holds in every state of every interleaving, spurious wake-ups and any terminal input included. |
| `ConsoleIn.StatusChangesUnderLock` | BackSlashThree/dev_bs3inout.c:113-125 | INSTATUS changes only by the step of a thread that holds lockIN. |
| `ConsoleIn.NotOverwritten` | BackSlashThree/dev_bs3inout.c:205-256 | The register IN is written only when no unconsumed byte is in it. |
| `ConsoleIn.TakesTheByte` | BackSlashThree/dev_bs3inout.c:113-125 | The CPU takes a byte only when one is marked ready, under both locks, and it is that byte, which is then the last delivered by the terminal. |
| `ConsoleIn.TakenInOrder` | BackSlashThree/dev_bs3inout.c:205-256 | In every run the bytes taken are a prefix of the bytes read from the terminal and lack at most the one waiting in IN: each byte is consumed exactly once and in order. |
| `ConsoleIn.ReturnedInOrder` | BackSlashThree/dev_bs3inout.c:113-146 | In every run the values returned by the reads of IN that took a byte are, in order, the bytes the terminal delivered; what is missing is the byte of a read not finished and the one that waits in IN, between two reads at most the latter. |
| `ConsoleIn.ReadEnds` | BackSlashThree/dev_bs3inout.c:144-146 | A value is returned only by the last step of a read, and it is the one the read holds. |
| `ConsoleIn.PeekReturns` | BackSlashThree/dev_bs3inout.c:123-124 | A read that took no byte returns the register as it stood at one moment of the read at which INSTATUS was not ready. |
| `ConsoleIn.NoLostWakeup` | BackSlashThree/dev_bs3inout.c:242-246 | Whenever the reader waits, its byte is still to be taken or the CPU is on its way to the signal. |
| `ConsoleIn.SignalWakes` | BackSlashThree/dev_bs3inout.c:119-121 | The CPU's signal finds the reader waiting or about to look again, so it is never given in vain. |
| `ConsoleIn.OppositeOrdersNeverMeet` | BackSlashThree/dev_bs3inout.c:113-256 | The two threads take lockIN and lockINSTATUS in opposite orders but are never each waiting for the other's lock. |
| `ConsoleIn.CpuWaitsBriefly` | BackSlashThree/dev_bs3inout.c:113-125 | A CPU waiting for a lock waits for a reader that is not in the blocking read, can go on, and frees the lock within two steps. |
| `ConsoleIn.ReaderWaitsBriefly` | BackSlashThree/dev_bs3inout.c:215-246 | A reader waiting for a lock waits for a CPU that can go on, each step bringing the release nearer. |
| `ConsoleOut.InvRun` | BackSlashThree/dev_bs3inout.c:322-351 | The invariant of the output protocol in every state of every interleaving, for both outputs, the state holding the ring's slots, front, rear and count. |
| `ConsoleOut.NeverRejects` | BackSlashThree/dev_bs3inout.c:66-73 | In every run the ring is not full whenever the device is ready, so enqueueOUT never returns -1. |
| `ConsoleOut.EmittedInOrder` | BackSlashThree/dev_bs3inout.c:258-287 | In every run with a working terminal the bytes sent are a prefix of the bytes accepted, and what is missing is the byte in hand and the ring, in order. |
| `ConsoleOut.FlushEmptiesAll` | BackSlashThree/dev_bs3inout.c:258-287 | After a flush every byte accepted has been sent. |
| `ConsoleOut.CheckCalls` | BackSlashThree/dev_bs3inout.c:163-178 | The byte checked is the last one accepted, and the status leaves ready if and only if it is a newline or the ring holds 262144 bytes; every accepted byte is then in the hand of the output thread, in the ring or sent. |
| `ConsoleOut.Nearer` | BackSlashThree/dev_bs3inout.c:322-351 | While a flush is called for and the terminal works, every step of either thread that changes anything lowers the distance to the end of the flush, and nothing more is accepted. |
| `ConsoleOut.GoesOn` | BackSlashThree/dev_bs3inout.c:322-351 | Until the flush has ended some thread can take such a step, and none that needs a spurious wake-up. |
| `ConsoleOut.AllSent` | BackSlashThree/dev_bs3inout.c:258-351 | Progress: within twice the bytes in the ring and a constant number of changing steps after a flush is called for, every byte accepted has been sent, in any interleaving with a working terminal. |
| `ConsoleOut.NoLostWakeup` | BackSlashThree/dev_bs3inout.c:326-349 | The output thread waits with the device not ready only while the CPU is on its way to a signal, which wakes it. |
| `ConsoleOut.NoDeadlock` | BackSlashThree/dev_bs3inout.c:163-178 | In every state one of the threads can step; a thread waiting for a lock waits for one that can. |
| `ConsoleOut.SecondIsSilenced` | BackSlashThree/dev_bs3inout.c:354-386 | The second output (line 368): once not ready it is never ready again and accepts nothing more, in any run. |
| `ConsoleOut.FirstIsReadyAgain` | BackSlashThree/dev_bs3inout.c:326-349 | The first output is ready again, and its ring empty, after each flush. |
| `Ring.ByteRing.Enqueue` | BackSlashThree/dev_bs3inout.c:66-73 | The ring array: a value is appended to the sequence the ring stands for, or -1 returned and nothing changed if it is full. |
| `Ring.ByteRing.Dequeue` | BackSlashThree/dev_bs3inout.c:84-92 | The first value of the sequence is removed and returned, or -1. |
| `Ring.PutAppends` | BackSlashThree/dev_bs3inout.c:66-73 | Writing behind the rear of a ring with room keeps it in order and appends to the sequence it stands for. |
| `Ring.GetDrops` | BackSlashThree/dev_bs3inout.c:84-92 | Moving past the front of a ring with an entry keeps it in order and drops the first of the sequence. |
| `Ring.Appended` | BackSlashThree/dev_bs3inout.c:66-73 | Writing the slot after the last appends to the sequence, also across the array's end. |
| `Ring.Dropped` | BackSlashThree/dev_bs3inout.c:84-92 | Moving past the front slot drops the first of the sequence. |
| `Irq.NeverFull` | BackSlashThree/bs3_bus.c:43-67 | Fifteen interrupt numbers, kept distinct, never fill the sixteen slots. |
| `Irq.ScanIsMembership` | BackSlashThree/bs3_bus.c:43-67 | Scanning all sixteen slots finds a number exactly if it waits, since unused slots hold 0 or -1 and neither is an interrupt. |
| `Irq.Fifo.Enqueue` | BackSlashThree/bs3_bus.c:43-67 | In place: a number not waiting is appended, a waiting one is dropped, and there is always room. |
| `Irq.Fifo.Dequeue` | BackSlashThree/bs3_bus.c:69-80 | In place: the number that waited longest is removed and returned, or -1. |
| `Irq.Fifo.Clear` | BackSlashThree/bs3_bus.c:246-252 | Writing the controller empties the queue. |
| `Irq.EveryRun` | BackSlashThree/bs3_bus.c:224-239 | In every interleaving of any producers and one consumer over the ring itself the unlocked test of the count stays sound, the ring never fills, what was taken followed by what waits is the requests in order of first request, and the delivered numbers are among the taken ones in the same order. |
| `Irq.AllDelivered` | BackSlashThree/bs3_bus.c:246-252 | In a run in which the controller is not written, which is what clears the queue, every number taken is delivered. |
| `Irq.Served` | BackSlashThree/bs3_bus.c:224-239 | A request that waits is delivered within three steps of the consumer for itself and for each request before it, whatever the producers do, unless the controller is written. |
| `Irq.DroppedOnlyIfWaiting` | BackSlashThree/bs3_bus.c:43-67 | A request is dropped if and only if its number is waiting already. |
| `CodeMapRead.LoadIsRun` | BackSlashThree/bs3_asm_code_map.c:285-569 | Any file of rendered sections, binary and hexadecimal mixed, loads into any map exactly as its blocks say, block by block, with the same error if it fails. |
| `CodeMapRead.HexLoads` | BackSlashThree/bs3_asm_code_map.c:425-566 | The hexadecimal state machine, character by character, reads back every block list written. |
| `CodeMapRead.BinLoads` | BackSlashThree/bs3_asm_code_map.c:329-422 | The binary loop reads back every block list written. |
| `CodeMapRead.HexBanks` | BackSlashThree/bs3_asm_code_map.c:512-541 | The announcement in hexadecimal: between its two bank numbers the loader names the old map again, with the new ROM bank. |
| `CodeMapRead.ScanSignature` | BackSlashThree/bs3_asm_code_map.c:302-323 | The signature search recognises either signature and stops just behind it. |
| `CodeMapOk.BlocksRun` | BackSlashThree/bs3_asm_code_map.c:192-250 | The runs of used cells found by the save, stored again, add exactly the map. |
| `CodeMapOk.SaveLoads` | BackSlashThree/bs3_asm_code_map.c:130-282 | A saved map with a free cell, loaded into any map: refused if and only if overlap is not permitted and a cell is in both; else the union, the loaded bytes winning. |
| `CodeMapOk.RoundTrip` | BackSlashThree/bs3_asm_code_map.c:206-217 | Saving in either format and loading restores exactly the cells and bytes if and only if the map has a free cell; a full map's length is written as 0 and ends the file. |
| `CodeMapOk.SeveralSaves` | BackSlashThree/bs3_asm_code_map.c:571-599 | Several saved maps, in any formats, load into one without permission to overlap if and only if they are pairwise disjoint; the result is their union, every cell with the byte of its map. |
| `CodeMapEmbed.EmbedLoads` | BackSlashThree/bs3_asm_code_map.c:42-128 | Chain homomorphism: loading a base file, an announcement and an embedded file gives the maps of the base followed by those of the embedded file, which take the announced banks where they announced none, and fails as the base or the embedded file does. A hexadecimal announcement also changes the ROM bank of the map before it. |
| `CodeMapEmbed.NestedEmbeds` | BackSlashThree/bs3_asm_code_map.c:42-128 | Files embedded in any nesting load as one flat chain, saved maps from left to right, each under the announced banks, with the exception above. |
| `CodeMapEmbed.BanksAsAnnounced` | BackSlashThree/bs3_asm_code_map.c:430-433 | Every map after the first has the banks announced for it if and only if no hexadecimal announcement follows a map announced with another ROM bank. |
| `CodeMapEmbed.HexTakesTheBank` | BackSlashThree/bs3_asm_code_map.c:512-541 | A concrete file in which a map ends up in the ROM bank of the map after it. |
| `CodeMapRun.Map.Reset` | BackSlashThree/bs3_asm_code_map.c:27-40 | In place: no cell is in use and no map is linked behind. |
| `CodeMapRun.Map.SaveTo` | BackSlashThree/bs3_asm_code_map.c:130-282 | The save state machine over the arrays writes exactly the specified file. |
| `CodeMapRun.Map.WriteHexa` | BackSlashThree/bs3_asm_code_map.c:220-244 | The hexadecimal block, with its line breaks after forty bytes, is the specified text. |
| `CodeMapRun.EmbedTo` | BackSlashThree/bs3_asm_code_map.c:42-128 | The announcement and the embedded file, appended byte by byte, are the specified file. |
| `CodeMapLoad.Loader.NewMap` | BackSlashThree/bs3_asm_code_map.c:613-624 | A fresh blank map is linked behind the current one, and nothing else changes. |
| `CodeMapLoad.Loader.Transfer` | BackSlashThree/bs3_asm_code_map.c:404-420 | The bytes of a binary block in place, with the errors of the specification. |
| `CodeMapLoad.Loader.Announcement` | BackSlashThree/bs3_asm_code_map.c:361-401 | The binary announcement in place, with the errors of the specification. |
| `CodeMapLoad.Loader.NextSignature` | BackSlashThree/bs3_asm_code_map.c:302-323 | The signature loop equals the specified search. |
| `CodeMapLoad.Loader.LoadBinary` | BackSlashThree/bs3_asm_code_map.c:329-422 | The binary loop in place equals the specified loader. |
| `CodeMapLoad.Loader.Digit` | BackSlashThree/bs3_asm_code_map.c:456-563 | One digit of the hexadecimal state machine in place equals the specified step. |
| `CodeMapLoad.Loader.LoadHexa` | BackSlashThree/bs3_asm_code_map.c:425-566 | The hexadecimal loop in place equals the specified loader. |
| `CodeMapLoad.LoadMap` | BackSlashThree/bs3_asm_code_map.c:575-599 | The load in place: the maps linked from the head, each with arrays of its own, are the chain of the specification; a map linked behind before stays if the file announces none. |
| `RelocOk.PassOne` | BackSlashThree/bs3_asm_line.c:374-388 | Lines can be committed to an empty map if and only if no two share a cell; the map is then exactly the lines. |
| `RelocOk.PassTwo` | BackSlashThree/bs3_asm_pass2.c:27-122 | Pass 2 succeeds if and only if every label can be written; the map is then the disjoint union of the new lines, the cells in use are those of pass 1, and every line is the old one with its labels in. A failure reports the first line that cannot be patched. |
| `RelocOk.InstructionPatched` | BackSlashThree/bs3_asm_pass2.c:74-111 | An instruction is patched if and only if its label is known and in reach of its pattern; the pattern's place then says the label's address, relative or absolute, and the bytes before it are kept. |
| `RelocOk.WordsPatched` | BackSlashThree/bs3_asm_pass2.c:67-73 | A DW line is patched if and only if all its labels are known; each label's word is then its address and the others are kept. |
| `RelocOk.UnlabelledKept` | BackSlashThree/bs3_asm_pass2.c:35-48 | A line without labels keeps its bytes. |
| `RelocOk.SameFind` | BackSlashThree/bs3_asm_line.c:224-242 | Patching moves no label: every lookup gives the same address before and after. |
| `Reloc.FindIs` | BackSlashThree/bs3_asm_line.c:224-242 | The address found for a label is that of a line which carries it and is not an alias, with no such line before it; none is found if and only if there is no such line. |
| `Bs3Cpu.LabelReached` | BackSlashThree/bs3.c:346-448 | Executing any patched jump, call or address load in memory that holds the code map puts exactly the label's address into PC (if taken) or Wx, with the return address pushed by calls and nothing else changed, for all registers and flags. |
| `Bs3Cpu.ExecMeant` | BackSlashThree/bs3.c:247-262 | The same for any placed instruction whose place says the target. |
| `Bs3Cpu.CallThenReturn` | BackSlashThree/bs3.c:327-364 | RET on the stack a call left returns to the instruction after the call and restores SP. |
| `Bs3Compare.UnsignedJumps` | BackSlashThree/bs3.c:1078-1092 | After a word comparison, with a register or an immediate, the jumps on equal and not equal are right, and above, above or equal, below and below or equal are right for every second operand but 0, against which there is no carry and every word counts as below. |
| `Bs3Compare.SignedJumps` | BackSlashThree/bs3.c:1078-1092 | After a comparison of two registers the four signed jumps are right for every second operand but -32768, which every word counts as less than. |
| `Bs3Compare.FlagJumps` | BackSlashThree/bs3.c:1078-1092 | The jumps on N and V test the sign of the 16-bit difference and, but for -32768, whether the signed difference leaves 16 bits. |
| `Bs3Compare.SignedImmJumps` | BackSlashThree/bs3.c:1609-1624 | After a comparison with an immediate, whose sign is taken the wrong way round (line 1616), less is right if and only if the immediate is -32768, or the difference fits in 16 bits and neither 0 <= a < b nor b <= a < 0; the other three follow it. |
| `Bs3Compare.ThreeIsNotLess` | BackSlashThree/bs3.c:1609-1624 | A concrete comparison: 3 with the immediate 5 is not followed by a jump on less, 3 with 5 in a register is. |
| `RelocRun.Assembler.CommitNew` | BackSlashThree/bs3_asm_line.c:374-388 | In place: the line is added if no cell of it is in use, else an overlap reported and no line added. |
| `RelocRun.Assembler.CommitAgain` | BackSlashThree/bs3_asm_line.c:389-402 | In place: the line's cells are rewritten if all are in use, else the commit fails. |
| `RelocRun.Assembler.AtLabel` | BackSlashThree/bs3_asm_line.c:224-242 | The address of the first line with the label. |
| `RelocRun.Assembler.PatchCode` | BackSlashThree/bs3_asm_pass2.c:76-109 | The loop over the pattern in place equals the specified patching. |
| `RelocRun.Assembler.PatchOne` | BackSlashThree/bs3_asm_pass2.c:38-117 | The loop over the parameters in place equals the specified patching. |
| `RelocRun.Assembler.RunPass2` | BackSlashThree/bs3_asm_pass2.c:7-124 | Pass 2 in place leaves exactly the lines and cells of the specification, or its error. |
| `RelocRun.CpuData.Exec` | BackSlashThree/bs3.c:247-448 | One of these instructions in place gives exactly the specified state. |
| `Rtc.TickIsASecond` | BackSlashThree/dev_rtc72421.c:203-329 | One tick from any valid 24-hour registers keeps them valid and advances the instant they stand for by one second, 100 years being one turn; the weekday moves exactly at midnight. |
| `Rtc.TicksAreSeconds` | BackSlashThree/dev_rtc72421.c:203-329 | n ticks advance the instant by exactly n seconds modulo 100 years, every fourth year a leap year, and the weekday by the midnights passed modulo 7. |
| `Rtc.DayAfter` | BackSlashThree/dev_rtc72421.c:270-324 | The carry past midnight goes to the next day of the calendar, across months and years. |
| `Rtc.InstantIsFaithful` | BackSlashThree/dev_rtc72421.c:10-41 | Valid registers that stand for the same instant are equal but for the weekday, so the instant misses nothing. |
| `Rtc.CenturyLater` | BackSlashThree/dev_rtc72421.c:203-329 | After 36525 days of ticks all registers are back and the weekday is one day behind. |
| `Rtc.AdjustRounds` | BackSlashThree/dev_rtc72421.c:169-188 | The 30-second adjustment goes to the nearest minute, half minutes up. |
| `Rtc.Clock.CarryDay` | BackSlashThree/dev_rtc72421.c:270-324 | The day, month and year cascade in place equals the specified one, for any register contents, bytes that wrap around included. |
| `Rtc.Clock.Second` | BackSlashThree/dev_rtc72421.c:207-329 | The whole cascade in place equals the specified tick in 24-hour mode, for any register contents, wrapping and the cleared afternoon bit included. |
| `Rtc.Clock.Run` | BackSlashThree/dev_rtc72421.c:157-333 | A clock run in place for n seconds denotes the instant n seconds later. |
| `Gfx.StreamPaints` | BackSlashThree/dev_bs3gfx.c:1340-1392 | Bytes streamed into a rectangle of any sides 1 to 256 at any start fill it row by row, wrapping, and change no other pixel; the transfer ends with exactly the last pixel. |
| `Gfx.StreamedPixels` | BackSlashThree/dev_bs3gfx.c:1340-1392 | Pixel by pixel: after w*h bytes the pixel at start + 256y + x modulo 65536 holds byte y*w + x and every pixel outside is as before. |
| `Gfx.TrailsIs` | BackSlashThree/dev_bs3gfx.c:1203-1238 | Some source pixel is written before it is read if and only if the target starts inside the part of the source still to be read, decided from start addresses and sides; both wrap at the end of the surface. |
| `Gfx.BlitPaints` | BackSlashThree/dev_bs3gfx.c:1203-1238 | A blit that reads no pixel it wrote before, or whose operator does not mind, mixes each target pixel with the source pixel as both were before, for every operator and colour replacement, and changes nothing else. |
| `Gfx.BlitExact` | BackSlashThree/dev_bs3gfx.c:1203-1238 | This is so whatever the surfaces hold if and only if no source pixel is written before it is read, or the operator gives the same on a source pixel mixed before. |
| `Gfx.OperatorExact` | BackSlashThree/dev_bs3gfx.c:1203-1238 | For the seven operators with any colour replacement: the blit is right whatever the surfaces hold if and only if no source pixel is written before it is read, or it is an OR or AND without a colour replacement with the rectangles half a surface apart; a condition on the registers alone. |
| `Gfx.AbsorbsIs` | BackSlashThree/dev_bs3gfx.c:1203-1238 | For the seven operators, any colours and distances: the operator gives the same on a source pixel mixed before if and only if it is OR or AND, nothing is replaced and the rectangles are half a surface apart. |
| `Gfx.StreamIsCopy` | BackSlashThree/dev_bs3gfx.c:1144-1241 | Streaming the source rectangle, colours replaced, gives the same surfaces as the copying blit if and only if the blit is right on these surfaces. |
| `Gfx.StreamExact` | BackSlashThree/dev_bs3gfx.c:1144-1241 | It does so whatever the surfaces hold if and only if no source pixel is written before it is read. |
| `Gfx.OverlapSmears` | BackSlashThree/dev_bs3gfx.c:1203-1238 | One example: a copy by one pixel to the right on its own surface smears the first pixel. |
| `Gfx.TilesApart` | BackSlashThree/dev_bs3gfx.c:589-620 | The tiles of a bank lie in the bank's 64 rows and no two share a pixel, for all four tile sizes. |
| `GfxRun.Device.BlitTransfer` | BackSlashThree/dev_bs3gfx.c:1314-1338 | The command in place: its refusals in order, and the progress registers at the start otherwise. |
| `GfxRun.Device.TransferData` | BackSlashThree/dev_bs3gfx.c:1340-1392 | One data byte in place equals the specified step; the other surface is unchanged. |
| `GfxRun.Device.StreamRectangle` | BackSlashThree/dev_bs3gfx.c:1314-1392 | A whole rectangle or tile streamed to the device paints it and nothing else and leaves the device not waiting; a refused transfer changes no surface. |
| `GfxRun.Device.BlitOperator` | BackSlashThree/dev_bs3gfx.c:1144-1241 | The blit in place: its refusals in order, and else exactly the specified surfaces. |

## Left out

Statements with a hypothesis of the machine's own:

- Bs9Correct.ExprOk: the source interpreter gives up when the stack budget is used up or a data access falls into code or
  stack, so nothing is said about those runs; what such an access does depends on the encoding. The C and O flags are not
  modelled, nor is R14.
- Bs9Correct.InvokeOk: the value of a call is what the compiled code really delivers; the value promised by `return e` is the
  subject of Bs9Program.ReturnedValueIsLost.
- Bs9Compile.TokensToRun: starts from tokens; characters, comments, the limits on line and name lengths and the sizes of the
  compiler's own tables are not modelled, and a missing name after `int` is one error here where the original may report more.
- Bs9Layout.CompilerOk: that different labels have different texts is a hypothesis, which Bs9Texts.PlainNamesDistinct shows
  for function names that do not both start with `_` and end with `t` or a digit; where two labels have one text the first
  counts, and nothing is said about the run.
- Bs9AsmAgree.PassAgreement: expressions are sums of terms over unbounded integers; overflow of the original's `long` is not
  modelled. Lines are instruction records, not text; the original cuts the operands of a line at 64, names at 127
  characters and terms at 255.
- Bs5Run.MicroOk: program and data are separate memories, and the interrupt context's second set of flags is not modelled.
- Irq.EveryRun: interrupt numbers are 1 to 15, because a fresh slot holds 0 and 0 always seems to be waiting.
- RelocOk.PassTwo: the lines are as pass 1 leaves them, with room for their patterns; pass 1's parsing is not modelled, and no
  line ends at address 65536.
- Bs3Cpu.LabelReached: a call whose return address would be pushed over the call itself is excluded; memory is plain and
  words are little-endian.
- CodeMapRead.LoadIsRun: an address past 65535 is an error here; the original writes outside its array.

Not modelled:

- BackSlash 9: `gen_binop`, which nothing calls, and the binary encodings in the compiler, which its output does not use.
- BackSlash 5: R14 as an operand, core instructions that no microprogram uses, late evaluation of labels and their scopes, the
  report and the Verilog output, whose V flag for `not` differs from the instruction set's text.
- Console: the stop flags, signals, and failures of `fputc` beyond "no more bytes are taken".
- Code maps: opening and closing files, which a short binary header does twice.
- BackSlash 3 assembler: local labels, `DB` and other directives, macros, includes, bus-mapped memory, the disassembler and the
  debugger. BackSlash 3 processor: arithmetic and its flags, but for the word comparisons.
- Clock: the 12-hour mode, the fixed-period interrupts, the hold and stop loop.
- Graphics: the refresh and composition of layers, sprites, tile maps, lines and boxes, the colour-key blit, and the word write
  to the command register that returns with the mutex held (dev_bs3gfx.c:306-309).
- tinyc, and the drafts of BackSlash 4 and 8, which have no code.
