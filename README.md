# nand2tetris toolchain in Dafny

This project models the software half of the nand2tetris course as its
JavaScript repository implements it, and proves what each tool promises.
It covers three tools:

- the **Hack assembler** of project 06;
- the **VM translators** of projects 07 and 08;
- the **Jack front end** of projects 10 and 11 (tokenizers, symbol table,
  compilation engines and VM writer).

Each source file modelled here becomes one Dafny module. Entities whose
fields the JavaScript code updates in place (parsers, symbol tables, code
writers, tokenizers, compilation engines, the VM writer) become classes
with those fields and `modifies` frames. Each of their methods is proved
against a specification function on values, and the properties are proved
as lemmas about those functions.

## Modules

- `Wrappers`: `Option` and `Result`. A thrown `Error` becomes an `Err`
  carrying the message the source throws.
- `Text`: the JavaScript string and number operations the tools use, written
  out on `seq<char>`: `indexOf`, `lastIndexOf`, `split`, `join`, `trim`,
  `startsWith`, `includes`, `toString(b)`, `padStart`, `slice`, `parseInt`
  and `Number`, each with lemmas for what it answers.
- `HackParser` (projects/06/assembler/parser.js): the `Parser` class. It
  strips comments and blank lines, and its cursor answers `commandType`,
  `symbol`, `dest`, `comp` and `jump` for the current instruction.
- `HackCode` (projects/06/assembler/code.js): the `dest`, `comp` and `jump`
  tables as association lists. Lemmas state the bit width of each field and
  that the tables are injective.
- `HackSymbols` (projects/06/assembler/symbolTable.js): the `SymbolTable`
  class with its predefined symbols, `addEntry`, `contains` and
  `getAddress`.
- `HackAssembler` (projects/06/assembler/index.js): the two passes. Pass one
  binds every label to the ROM address of the instruction after it. Pass
  two allocates RAM addresses from 16 upwards to new variables and encodes
  every instruction as 16 binary characters.
- `VmParser` (projects/07/VMTranslater/parser.js): the VM command cursor,
  with `commandType`, `arg1` and `arg2`.
- `VmCodeWriter7` and `VmCodeWriter8` (the two `codeWriter.js` files): the
  Hack assembly each VM command becomes, including the labels that
  comparisons define and the segment addressing for push and pop.
- `HackMachine`: the Hack computer running assembly text, for the
  instructions the VM translators emit. It has A-instructions, label
  definitions, assignments to one register and jumps, and 16-bit words
  with wrap-around. The program counter counts lines, label definitions
  included. A label therefore stands for the line that defines it, where the
  machine does nothing for one step. The assembled program runs the same
  way without those idle steps.
- `VmCodeSemantics`: what the arithmetic code of both code writers does
  when `HackMachine` runs it. The lines decode as Hack instructions, and
  running them from any state with enough words on the stack replaces the
  operands by the VM's answer, moves SP and changes no other RAM word.
- `VmSegmentSemantics`: the same for the `push` and `pop` code of
  projects/08/VMTranslater/codeWriter.js, segment by segment (`constant`,
  `local`, `argument`, `this`, `that`, `pointer`, `temp`, `static`).
- `JackVmWriter` (projects/11/JackCompiler/vmWriter.js): the `VMWriter`
  class. Every command it writes reads back, through a small line parser,
  as the command and arguments it was given.
- `JackLexicon`: the keyword and symbol sets and the token classification
  (`tokenType`, `keyWord`, `intVal`, `stringVal`) that both tokenizers share.
- `JackTokenizer10` and `JackTokenizer11` (the two `jackTokenizer.js`
  files): comment removal, the line-by-line split into tokens, and the
  cursor over the token list.
- `JackSymbolTable` (projects/11/JackAnalyzer/symbolTable.js): the two
  scopes as a value `Scopes` and the `SymbolTable` class around it, with
  `startSubroutine`, `define`, `varCount`, `kindOf`, `typeOf` and `indexOf`.
- `JackGrammar`: the Jack grammar as the two compilation engines of
  project 11 recognise it. There is one function per `compile…` method and
  one per `while` loop inside a method. Each maps the token list and the
  engine's state (cursor, indentation, XML lines, symbol table) to the
  state after the call, or to the exception's message. The analyzer and
  the compiler differ only where the compiler fills its symbol table and
  writes names with their entry, so one definition serves both, switched
  by `Engine` (`Analyzer` or `Compiler`).
- `JackEngine` (both `compilationEngine.js` files): the `CompilationEngine`
  class. Every `compile…` method is proved to leave exactly the state, or
  throw exactly the message, that its `JackGrammar` function gives.
- `JackGrammarProperties`: what the grammar functions guarantee. This
  covers the XML shape of keywords, symbols and blocks, the declarations
  that fill the symbol table, the errors thrown for ill-formed input, and
  where each loop stops.

### Behaviour kept as the code has it

- The compiler engine looks up the kind of a variable with a key built from
  `tokenType()` (projects/11/JackCompiler/compilationEngine.js:375). The
  model reproduces that lookup through `KindOf` applied to that key.
- `compileParameterList` keeps reading parameters while the current token
  is `int`, `char` or `boolean` or `tokenType()` answers identifier
  (projects/11/JackCompiler/compilationEngine.js:184,
  projects/11/JackAnalyzer/compilationEngine.js:153).
  `compileExpressionList` keeps reading expressions while the current token
  is not `)` (projects/11/JackCompiler/compilationEngine.js:341). Both
  therefore accept a missing comma between items, and the model does too.
- `define` gives a redefined name the next index of its kind and overwrites
  the entry (`RedefinitionSharesIndex`).
- The compiler engine constructs a `VMWriter` but never calls it. The
  engine model writes the XML listing only.
- The compilation engines read the tokens of the projects/11 tokenizer as
  that code computes them, including the behaviour described in finding
  (a) below.
- `eq`, `gt` and `lt` compute `D=M-D` and jump on its sign, as the code
  does. When the difference of a `gt` or `lt` overflows 16 bits the answer is
  not the signed comparison (`GreaterOverflows`). The model keeps that
  behaviour and states the agreement only for differences that do not
  overflow.
- projects/08/VMTranslater/index.js calls `writeLabel`, `writeGoto` and
  `writeIf`, which projects/08/VMTranslater/codeWriter.js does not define.
  The model of that code writer has only the methods the file defines.

## Model

| member | source | states |
|---|---|---|
| HackParser.Instructions | projects/06/assembler/parser.js:9-12 | every kept instruction is non-empty, contains no space and does not start with `//` |
| HackParser.InstructionsOfLines | projects/06/assembler/parser.js:9-12 | a text of CRLF-joined lines reads back as those lines with every space removed, minus the empty and comment lines, in order |
| HackParser.TypeOf | projects/06/assembler/parser.js:30-38 | A-command exactly when the command starts with `@`; label exactly when it starts with `(` and not `@`; C-command otherwise |
| HackParser.Symbol | projects/06/assembler/parser.js:40-48 | succeeds exactly for A-commands and labels (throws for a C-command); the symbol is shorter than the command |
| HackParser.DestField | projects/06/assembler/parser.js:50-58 | succeeds exactly for C-commands; the field is `null` exactly when the command contains `;` |
| HackParser.CompField | projects/06/assembler/parser.js:60-68 | succeeds exactly for C-commands and throws otherwise |
| HackParser.JumpField | projects/06/assembler/parser.js:70-75 | succeeds exactly for C-commands and throws otherwise |
| HackParser.SymbolOfAddress | projects/06/assembler/parser.js:31-42 | `@v` is an A-command whose symbol is `v` |
| HackParser.SymbolOfLabel | projects/06/assembler/parser.js:33-44 | `(name)` is a label whose symbol is `name` |
| HackParser.FieldsOfAssignment | projects/06/assembler/parser.js:50-75 | `d=c` (no `=` or `;` inside the parts) reads back as dest `d`, comp `c` and no jump |
| HackParser.FieldsOfJump | projects/06/assembler/parser.js:50-75 | `c;j` reads back as no dest, comp `c` and jump `j` |
| HackParser.Parser.constructor | projects/06/assembler/parser.js:7-15 | the instruction list is the cleaned text, the cursor is 0 and the current command is the first instruction (undefined for an empty program) |
| HackParser.Parser.HasMoreCommands | projects/06/assembler/parser.js:17-19 | while it holds the cursor is on a line and the current command is that line's command; once it fails the cursor is at the end |
| HackParser.Parser.Advance | projects/06/assembler/parser.js:21-28 | moves one line only while commands remain; shows the next line without its comment, or keeps the old command past the last line; keeps the parser invariant |
| HackCode.Lookup | projects/06/assembler/code.js:65-67 | a value found is stored with that key in the table, and nothing is found only for a key the table lacks |
| HackCode.LookupSpec | projects/06/assembler/code.js:65-67 | a dictionary lookup finds a value exactly for the keys of the table, and the value found is stored with that key |
| HackCode.Dest | projects/06/assembler/code.js:43-63 | a three-bit binary text, whose bits are set exactly when the mnemonic names A, D and M; `000` when the mnemonic is missing |
| HackCode.DestIgnoresOrder | projects/06/assembler/code.js:43-63 | two dest mnemonics naming the same registers encode alike (`MD` and `DM`) |
| HackCode.Comp | projects/06/assembler/code.js:65-67 | defined exactly for the 28 comp mnemonics of the table, then a seven-bit binary text stored with that key |
| HackCode.CompCodes | projects/06/assembler/code.js:1-30 | every comp code has seven binary digits |
| HackCode.CompABit | projects/06/assembler/code.js:1-30 | the leading `a` bit of a comp code is set exactly when the computation reads M |
| HackCode.CompReadsOneOf | projects/06/assembler/code.js:1-30 | no computation reads both A and M |
| HackCode.TablesHaveDistinctKeys | projects/06/assembler/code.js:1-40 | no mnemonic appears twice in the comp or the jump table |
| HackCode.Jump | projects/06/assembler/code.js:69-72 | `000` for a missing mnemonic; otherwise defined exactly for the seven jump mnemonics, a three-bit code stored with that key |
| HackCode.JumpCodes | projects/06/assembler/code.js:32-40 | each jump code has three bits `j1 j2 j3`, set exactly when the jump is taken on a negative, a zero and a positive ALU output |
| HackSymbols.PredefinedAddresses | projects/06/assembler/symbolTable.js:2-28 | the initial table names exactly the 23 platform symbols, and every address text reads back through `parseInt(…, 16)` as the platform address |
| HackSymbols.SymbolTable.constructor | projects/06/assembler/symbolTable.js:2-28 | the table starts as the predefined symbols |
| HackSymbols.SymbolTable.AddEntry | projects/06/assembler/symbolTable.js:30-33 | stores the address under the symbol, replacing any earlier entry, and changes no other symbol |
| HackSymbols.SymbolTable.Contains | projects/06/assembler/symbolTable.js:35-37 | true exactly when the symbol has a stored address that is not the empty text (JavaScript truthiness) |
| HackSymbols.SymbolTable.GetAddress | projects/06/assembler/symbolTable.js:39-41 | defined exactly for stored symbols, then the stored address |
| HackAssembler.RomCountsCommands | projects/06/assembler/index.js:17-30 | after the first n commands of pass one the ROM address is the number of A- and C-commands among them; no stored address is empty |
| HackAssembler.LabelStep | projects/06/assembler/index.js:18-28 | an A- or C-command advances the ROM address by one; a label not yet stored is stored at the six-digit hexadecimal ROM text and nothing else changes; a stored label or other command leaves the table |
| HackAssembler.LabelAddress | projects/06/assembler/index.js:17-30 | a label not already stored receives the number of A- and C-commands before it and keeps it to the end of the pass (the first definition wins) |
| HackAssembler.LabelPersists | projects/06/assembler/index.js:22-25 | once pass one has stored a symbol, its address never changes |
| HackAssembler.RomTextReadsBack | projects/06/assembler/index.js:23-24 | the six-digit hexadecimal text of a ROM address below 16^6 reads back through `parseInt(…, 16)` as that address |
| HackAssembler.EncodeStep | projects/06/assembler/index.js:39-67 | one step of pass two keeps the words already written and appends one word for an A- or C-command and none for a label |
| HackAssembler.CWord | projects/06/assembler/index.js:39-48 | the word starts with `111`; when both the comp and the jump mnemonic are in their tables it is sixteen binary digits |
| HackAssembler.FoldPreserves | projects/06/assembler/index.js:38-70 | a property of the pass state that every step keeps holds after any number of steps |
| HackAssembler.OneWordPerCommand | projects/06/assembler/index.js:38-70 | pass two writes exactly one word per A- and C-command and none for labels |
| HackAssembler.NumericAddressWord | projects/06/assembler/index.js:49-66 | a numeric A-command writes the 16-digit binary text of its value, which reads back as the value modulo 2^16, and changes neither table nor RAM counter |
| HackAssembler.NewVariable | projects/06/assembler/index.js:49-66 | the first use of a variable stores it at the next RAM address, advances that address by one and writes the address in binary |
| HackAssembler.KnownSymbol | projects/06/assembler/index.js:53-55 | a later use of a stored symbol writes its stored address and changes neither the table nor the RAM counter |
| HackAssembler.EncodeStepTable | projects/06/assembler/index.js:49-61 | one step of pass two either leaves table and RAM counter alone or adds one new symbol at the RAM counter and advances it |
| HackAssembler.RamCountsVariables | projects/06/assembler/index.js:15-59 | pass two only adds to the table, and the next free RAM address is 16 plus the number of symbols it added |
| HackAssembler.AssignmentWord | projects/06/assembler/index.js:39-48 | a C-command `dest=comp` encodes as `111`, the comp bits, the dest bits and `000`: sixteen binary digits |
| HackAssembler.JumpWord | projects/06/assembler/index.js:39-48 | a C-command `comp;jump` encodes as `111`, the comp bits, `000` and the jump bits: sixteen binary digits |
| HackAssembler.LabelCommand | projects/06/assembler/index.js:18-30 | the body of the first loop updates the ROM address and the symbol table as one step of pass one |
| HackAssembler.EncodeCommand | projects/06/assembler/index.js:39-69 | the body of the second loop updates the words, the symbol table and the RAM address as one step of pass two |
| HackAssembler.LabelPass | projects/06/assembler/index.js:17-30 | the first loop visits every instruction and ends in the state of pass one over the whole program |
| HackAssembler.EncodePass | projects/06/assembler/index.js:32-70 | after the rewind, the second loop visits every instruction and writes the words of pass two, leaving pass two's table |
| HackAssembler.MachineCode | projects/06/assembler/index.js:10-72 | the program's machine code holds exactly one word per A- and C-command |
| HackAssembler.Assemble | projects/06/assembler/index.js:10-72 | the words written are the machine code of the program, one per A- and C-command |
| VmParser.Instructions | projects/07/VMTranslater/parser.js:17-22 | the kept lines are exactly the CRLF-separated lines that are not empty and do not start with `//` |
| VmParser.InstructionsOfLines | projects/07/VMTranslater/parser.js:19-22 | a text made of CRLF-joined lines reads back as those lines minus the blank and comment ones, in order |
| VmParser.TypeOf | projects/07/VMTranslater/parser.js:40-60 | push, pop, label, goto, if-goto, function and call exactly when the command starts with that word (the earlier test wins), return exactly for the whole command `return`, arithmetic otherwise |
| VmParser.CommandWordHeads | projects/07/VMTranslater/parser.js:40-60 | a command starting with one of the command words begins with that word's first letter (its first two for `push` and `pop`), so the type tests never overlap |
| VmParser.TypeOfCommandWord | projects/07/VMTranslater/parser.js:40-60 | a push, pop, label, goto, if-goto, function or call word followed by a space gives that type; only the exact `return` is a return, `return` followed by a space is arithmetic |
| VmParser.Arg1 | projects/07/VMTranslater/parser.js:62-68 | `undefined` for return, the whole command for arithmetic, the second space-separated word otherwise |
| VmParser.Arg2 | projects/07/VMTranslater/parser.js:70-73 | the third space-separated word for push, pop, function and call, `undefined` for every other type |
| VmParser.ArgsOfThreeWords | projects/07/VMTranslater/parser.js:62-73 | `word a1 a2` of a push, pop, function or call reads back as arguments `a1` and `a2` |
| VmParser.ArgsOfTwoWords | projects/07/VMTranslater/parser.js:62-73 | `word a1` of a label, goto or if-goto reads back as argument `a1` and no second argument |
| VmParser.Parser.constructor | projects/07/VMTranslater/parser.js:17-25 | the instruction list is the filtered text, the cursor is 0 and the current command is the first instruction |
| VmParser.Parser.HasMoreCommands | projects/07/VMTranslater/parser.js:27-29 | while it holds the cursor is on a line and the current command is that line cut at `//`; once it fails the cursor is at the end |
| VmParser.Parser.Advance | projects/07/VMTranslater/parser.js:31-38 | moves one line only while commands remain; shows the next line cut at `//`, or keeps the old command past the last line |
| VmCodeWriter7.CompareLines | projects/07/VMTranslater/codeWriter.js:110-124 | a comparison is pop, `D=M`, pop, `D=M-D`, `@RETURN_TRUE_n`, `D;J..`, `D=0`, `@NEXT_n`, `0;JMP`, `(RETURN_TRUE_n)`, `D=-1`, `(NEXT_n)`, push, with n the label number |
| VmCodeWriter7.ArithmeticCommands | projects/07/VMTranslater/codeWriter.js:12-22 | `writeArithmetic` produces code exactly for neg, not, add, sub, and, or, eq, gt and lt |
| VmCodeWriter7.CompareDefinitions | projects/07/VMTranslater/codeWriter.js:113-123 | a comparison defines exactly its two labels, `RETURN_TRUE_n` then `NEXT_n` |
| VmCodeWriter7.ArithmeticDefinitions | projects/07/VMTranslater/codeWriter.js:12-127 | an arithmetic command defines the labels of comparison number n when it is a comparison and no label otherwise |
| VmCodeWriter7.ArithmeticKeepsLabels | projects/07/VMTranslater/codeWriter.js:98-127 | appending a command's code to an output that defines the labels of the first n comparisons gives one that defines those of the first n plus the labels it used |
| VmCodeWriter7.LabelsDiffer | projects/07/VMTranslater/codeWriter.js:115-122 | two label texts are equal exactly when their numbers are, and a true label is never a next label |
| VmCodeWriter7.DefinedDistinct | projects/07/VMTranslater/codeWriter.js:98-127 | the first n comparisons define 2n labels, none twice, each carrying a number below n |
| VmCodeWriter7.CodeWriter.constructor | projects/07/VMTranslater/codeWriter.js:4-10 | the output starts empty and the label counter at 0 |
| VmCodeWriter7.CodeWriter.WriteCodes | projects/07/VMTranslater/codeWriter.js:38-40 | appends exactly the given lines and leaves the counter |
| VmCodeWriter7.CodeWriter.WritePushFromD | projects/07/VMTranslater/codeWriter.js:43-51 | appends the five-line push of D |
| VmCodeWriter7.CodeWriter.WritePopToA | projects/07/VMTranslater/codeWriter.js:54-60 | appends the three-line pop into A |
| VmCodeWriter7.CodeWriter.WritePushPop | projects/07/VMTranslater/codeWriter.js:24-36 | `push constant k` appends `@k`, `D=A` and the push; every other command or segment appends nothing and does not throw |
| VmCodeWriter7.CodeWriter.WriteCalc1Value | projects/07/VMTranslater/codeWriter.js:62-75 | neg and not append pop, their formula and push; any other command throws `c` and appends nothing |
| VmCodeWriter7.CodeWriter.WriteCalc2Values | projects/07/VMTranslater/codeWriter.js:77-96 | add, sub, and, or append pop, `D=M`, pop, their formula and push; anything else throws and appends nothing |
| VmCodeWriter7.CodeWriter.WriteCompare | projects/07/VMTranslater/codeWriter.js:98-127 | eq, gt and lt append the comparison with the current label number and raise it by one; anything else throws and changes nothing |
| VmCodeWriter7.CodeWriter.WriteArithmetic | projects/07/VMTranslater/codeWriter.js:12-22 | dispatches to the group's helper, appending its code and using one label number for a comparison only; throws `invalid arithmetic command` otherwise; keeps the labels of the output unique |
| VmCodeWriter7.LabelsUnique | projects/07/VMTranslater/codeWriter.js:98-127 | no label is defined twice in the output of a valid writer |
| VmCodeWriter8.Increments | projects/08/VMTranslater/codeWriter.js:196-199 | the increments are exactly `Number(index)` lines, each `A=A+1`, and none for NaN or 0 |
| VmCodeWriter8.PushPopCode | projects/08/VMTranslater/codeWriter.js:39-78 | throws `invalid command for writePushPop` exactly for a command other than push and pop, `invalid segment` exactly for an unknown segment or a pop to constant, and succeeds otherwise |
| VmCodeWriter8.PushPopErrors | projects/08/VMTranslater/codeWriter.js:39-78 | `writePushPop` throws `invalid command for writePushPop` exactly for a command other than push and pop, `invalid segment` exactly for an unknown segment or a pop to `constant`, and succeeds otherwise |
| VmCodeWriter8.SegmentLabels | projects/08/VMTranslater/codeWriter.js:171-187 | `getLabelBySegment` answers exactly for local, argument, this, that, pointer and temp and throws `invalid segment` otherwise |
| VmCodeWriter8.CountOfConcat | projects/08/VMTranslater/codeWriter.js:196-199 | the number of copies of a line in two joined outputs is the sum of the two counts |
| VmCodeWriter8.CountAll | projects/08/VMTranslater/codeWriter.js:196-199 | an output made only of one line counts that line once per element |
| VmCodeWriter8.CountNone | projects/08/VMTranslater/codeWriter.js:196-199 | an output without a line counts it zero times |
| VmCodeWriter8.Offset | projects/08/VMTranslater/codeWriter.js:196-199 | a positive offset is the value `Number(index)` gives; the offset is 0 exactly when that value is missing (NaN) or 0 |
| VmCodeWriter8.OffsetLines | projects/08/VMTranslater/codeWriter.js:189-251 | push and pop through a segment with a base write exactly `Number(index)` `A=A+1` lines |
| VmCodeWriter8.OffsetOfNumber | projects/08/VMTranslater/codeWriter.js:196 | the decimal text of n moves A by n |
| VmCodeWriter8.NoDefinitionsByHead | projects/08/VMTranslater/codeWriter.js:80-82 | lines none of which starts with `(` define no label |
| VmCodeWriter8.NoDefinitionsOfThree | projects/08/VMTranslater/codeWriter.js:80-82 | three outputs without labels joined define none |
| VmCodeWriter8.PopDefinesNothing | projects/08/VMTranslater/codeWriter.js:96-102 | the pop into A defines no label |
| VmCodeWriter8.PushShapeDefinesNothing | projects/08/VMTranslater/codeWriter.js:189-234 | a head without labels, the increments, `D=M` and the push define no label |
| VmCodeWriter8.PushReferencedDefinesNothing | projects/08/VMTranslater/codeWriter.js:189-203 | the push from local, argument, this or that defines no label |
| VmCodeWriter8.PopReferencedDefinesNothing | projects/08/VMTranslater/codeWriter.js:205-221 | the pop to local, argument, this or that defines no label |
| VmCodeWriter8.PushFixedDefinesNothing | projects/08/VMTranslater/codeWriter.js:223-234 | the push from pointer or temp defines no label |
| VmCodeWriter8.PopFixedDefinesNothing | projects/08/VMTranslater/codeWriter.js:236-251 | the pop to pointer or temp defines no label |
| VmCodeWriter8.DirectDefinesNothing | projects/08/VMTranslater/codeWriter.js:41-71 | push constant, push static and pop static define no label |
| VmCodeWriter8.PushPopDefinesNothing | projects/08/VMTranslater/codeWriter.js:39-78 | no successful `writePushPop` defines a label |
| VmCodeWriter8.FileNameIgnoresDirectory | projects/08/VMTranslater/codeWriter.js:16-22 | the file name used for static symbols is the base name of the path without its extension, plus `.asm`, whatever the directory; it holds no `/` |
| VmCodeWriter8.CodeWriter.constructor | projects/08/VMTranslater/codeWriter.js:16-25 | the file name comes from the path, the output starts empty and the label counter at 0 |
| VmCodeWriter8.CodeWriter.WriteCodes | projects/08/VMTranslater/codeWriter.js:80-82 | appends exactly the given lines and leaves the counter |
| VmCodeWriter8.CodeWriter.WritePushFromD | projects/08/VMTranslater/codeWriter.js:85-93 | appends the five-line push of D |
| VmCodeWriter8.CodeWriter.WritePopToA | projects/08/VMTranslater/codeWriter.js:96-102 | appends the three-line pop into A |
| VmCodeWriter8.CodeWriter.WriteCalc1Value | projects/08/VMTranslater/codeWriter.js:104-117 | neg and not append pop, their formula and push; anything else throws and appends nothing |
| VmCodeWriter8.CodeWriter.WriteCalc2Values | projects/08/VMTranslater/codeWriter.js:119-138 | add, sub, and, or append pop, `D=M`, pop, their formula and push; anything else throws and appends nothing |
| VmCodeWriter8.CodeWriter.WriteCompare | projects/08/VMTranslater/codeWriter.js:140-169 | eq, gt and lt append the comparison with the current label number and raise it by one; anything else throws and changes nothing |
| VmCodeWriter8.CodeWriter.WriteComparison | projects/08/VMTranslater/codeWriter.js:152-168 | appends one comparison with the current label number and raises the counter |
| VmCodeWriter8.CodeWriter.WriteArithmetic | projects/08/VMTranslater/codeWriter.js:27-37 | dispatches to the group's helper, appending its code and using one label number for a comparison only; throws `invalid command for writeArithmetic` otherwise; keeps the labels of the output unique |
| VmCodeWriter8.CodeWriter.WritePushFromReferencedSegment | projects/08/VMTranslater/codeWriter.js:189-203 | appends `@label`, `A=M`, the increments, `D=M` and the push, or throws before writing for a segment without a label |
| VmCodeWriter8.CodeWriter.WritePopToReferencedSegment | projects/08/VMTranslater/codeWriter.js:205-221 | appends the pop, `D=M`, `@label`, `A=M`, the increments and `M=D`; a segment without a label throws after the pop is written |
| VmCodeWriter8.CodeWriter.WritePushFromFixedSegment | projects/08/VMTranslater/codeWriter.js:223-234 | appends `@label`, the increments, `D=M` and the push, or throws before writing |
| VmCodeWriter8.CodeWriter.WritePopToFixedSegment | projects/08/VMTranslater/codeWriter.js:236-251 | appends the pop, `D=M`, `@label`, the increments and `M=D`; a segment without a label throws after the pop is written |
| VmCodeWriter8.CodeWriter.WritePush | projects/08/VMTranslater/codeWriter.js:40-59 | the push branch writes exactly the code of its segment or throws `invalid segment` with nothing written |
| VmCodeWriter8.CodeWriter.WritePop | projects/08/VMTranslater/codeWriter.js:60-74 | the pop branch writes exactly the code of its segment or throws `invalid segment` with nothing written |
| VmCodeWriter8.CodeWriter.WritePushPop | projects/08/VMTranslater/codeWriter.js:39-78 | appends the code of the command or throws its error with nothing written; the counter does not move and the labels stay unique |
| JackVmWriter.NumberIsWord | projects/11/JackCompiler/vmWriter.js:10-38 | the decimal text of an index or count is one non-empty word |
| JackVmWriter.ThreeWordLine | projects/11/JackCompiler/vmWriter.js:9-39 | a three-word line reads back with its second and third words as arguments, the third as its number |
| JackVmWriter.PushLineReadsBack | projects/11/JackCompiler/vmWriter.js:9-11 | `push segment index` reads back through the VM translator's parser as a push of that segment and index |
| JackVmWriter.PopLineReadsBack | projects/11/JackCompiler/vmWriter.js:13-15 | `pop segment index` reads back as a pop of that segment and index |
| JackVmWriter.CallLineReadsBack | projects/11/JackCompiler/vmWriter.js:33-35 | `call name nArgs` reads back as a call of that name with that count |
| JackVmWriter.FunctionLineReadsBack | projects/11/JackCompiler/vmWriter.js:37-39 | `function name nLocals` reads back as a function of that name with that count |
| JackVmWriter.TwoWordLine | projects/11/JackCompiler/vmWriter.js:21-31 | a two-word label, goto or if-goto line reads back with the label as its only argument |
| JackVmWriter.LabelLineReadsBack | projects/11/JackCompiler/vmWriter.js:21-23 | `label l` reads back as a label command for l |
| JackVmWriter.GotoLineReadsBack | projects/11/JackCompiler/vmWriter.js:25-27 | `goto l` reads back as a goto to l |
| JackVmWriter.IfLineReadsBack | projects/11/JackCompiler/vmWriter.js:29-31 | `if-goto l` reads back as an if-goto to l |
| JackVmWriter.NotPrefix | projects/11/JackCompiler/vmWriter.js:17-19 | a text shorter than a prefix or differing in its first character does not start with it |
| JackVmWriter.NoPrefixIsArithmetic | projects/11/JackCompiler/vmWriter.js:17-19 | a command that starts with none of the command words is read as arithmetic |
| JackVmWriter.ArithmeticLineReadsBack | projects/11/JackCompiler/vmWriter.js:17-19 | each of the nine stack commands written verbatim reads back as that arithmetic command |
| JackVmWriter.ReturnLineReadsBack | projects/11/JackCompiler/vmWriter.js:41-43 | `return` reads back as a return without arguments |
| JackVmWriter.WrittenLinesReadBack | projects/11/JackCompiler/vmWriter.js:9-43 | lines joined with CRLF, none blank, a comment or holding CR, read back line for line as the translator's instructions |
| JackVmWriter.CommandLinesOfLines | projects/11/JackCompiler/vmWriter.js:9-43 | lines none of which is blank or a comment are all kept as command lines |
| JackVmWriter.LfTextIsOneInstruction | projects/11/JackCompiler/vmWriter.js:10-42 | output with LF line ends only is one instruction to a parser that splits at CRLF |
| JackVmWriter.VmWriter.constructor | projects/11/JackCompiler/vmWriter.js:4-7 | the output starts empty |
| JackVmWriter.VmWriter.WritePush | projects/11/JackCompiler/vmWriter.js:9-11 | appends `push segment index` and a line feed |
| JackVmWriter.VmWriter.WritePop | projects/11/JackCompiler/vmWriter.js:13-15 | appends `pop segment index` and a line feed |
| JackVmWriter.VmWriter.WriteArithmetic | projects/11/JackCompiler/vmWriter.js:17-19 | appends the command and a line feed |
| JackVmWriter.VmWriter.WriteLabel | projects/11/JackCompiler/vmWriter.js:21-23 | appends `label l` and a line feed |
| JackVmWriter.VmWriter.WriteGoto | projects/11/JackCompiler/vmWriter.js:25-27 | appends `goto l` and a line feed |
| JackVmWriter.VmWriter.WriteIf | projects/11/JackCompiler/vmWriter.js:29-31 | appends `if-goto l` and a line feed |
| JackVmWriter.VmWriter.WriteCall | projects/11/JackCompiler/vmWriter.js:33-35 | appends `call name nArgs` and a line feed |
| JackVmWriter.VmWriter.WriteFunction | projects/11/JackCompiler/vmWriter.js:37-39 | appends `function name nLocals` and a line feed |
| JackVmWriter.VmWriter.WriteReturn | projects/11/JackCompiler/vmWriter.js:41-43 | appends `return` and a line feed |
| Text.IndexOfFinds | projects/07/VMTranslater/parser.js:41-56 | `indexOf` answers the first position where the needle occurs, and -1 exactly when it occurs nowhere |
| Text.LastIndexOfChar | projects/08/VMTranslater/codeWriter.js:17-21 | `lastIndexOf` of a character answers its last position, and -1 exactly when it is absent |
| Text.BaseNameUnderDirectory | projects/08/VMTranslater/codeWriter.js:18-22 | the text after the last `/` of `dir/s` is that of `s` |
| Text.SplitOfJoin | projects/07/VMTranslater/parser.js:19 | splitting lines joined with a separator whose first character none of them holds gives the lines back |
| Text.CommandLines | projects/07/VMTranslater/parser.js:20-22 | the kept lines are exactly those that are not empty and do not start with `//`, none added |
| Text.StripCommentSpec | projects/07/VMTranslater/parser.js:36 | `split("//")[0]` keeps the part of the line before its first `//`: a prefix holding no `//`, followed in the line by `//` when it has one, the whole line when it has none |
| Text.Trim | projects/11/JackAnalyzer/jackTokenizer.js:20-25 | `trim` gives no longer a text, which neither starts nor ends with white space |
| Text.TrimSlice | projects/11/JackAnalyzer/jackTokenizer.js:20-25 | what `trim` gives is one contiguous slice of the text, and every character before and after that slice is white space |
| Text.ValueOfToBase | projects/06/assembler/index.js:23-61 | the digits `toString(b)` writes have the value of the number |
| Text.NatToStringInjective | projects/11/JackCompiler/vmWriter.js:10 | two numbers have the same decimal text exactly when they are equal |
| Text.PadToValue | projects/06/assembler/index.js:23-57 | zero padding and keeping the last w digits keeps the value modulo b to the w |
| Text.JsNumberOfDecimal | projects/08/VMTranslater/codeWriter.js:196 | `Number` of the decimal text of n is n |
| Text.HexAddressReadsBack | projects/06/assembler/index.js:57-61 | a RAM address below 65536 written as `0x` and four hexadecimal digits reads back through `parseInt(address, 16)` as itself |
| Text.BinaryWord | projects/06/assembler/index.js:61-63 | the 16-character binary text is made of 0 and 1 and holds the low 16 bits of the number |
| Text.ParseDecimal | projects/06/assembler/index.js:63 | `parseInt` of decimal digits is their value, and NaN for empty text |
| JackSymbolTable.StartSubroutineScope | projects/11/JackAnalyzer/symbolTable.js:11-14 | after `startSubroutine` the argument and var counts are 0, the class counts are kept and a name is found exactly as in the class scope |
| JackSymbolTable.DefineStores | projects/11/JackAnalyzer/symbolTable.js:16-44 | `define` with one of the four kinds stores the entry (type, kind, count of the kind before the call) in that kind's table and changes no other table |
| JackSymbolTable.DefineCounts | projects/11/JackAnalyzer/symbolTable.js:16-58 | a fresh name raises the count of its kind by one, a name already there leaves it, and no other count moves |
| JackSymbolTable.InvalidKind | projects/11/JackAnalyzer/symbolTable.js:41-57 | a kind outside the four throws `invalid kind for define` and `invalid kind for varCount` |
| JackSymbolTable.SubroutineScopeShadows | projects/11/JackAnalyzer/symbolTable.js:60-100 | a name in the argument or var table is found there, whatever the class tables hold, the argument table first |
| JackSymbolTable.LookupResults | projects/11/JackAnalyzer/symbolTable.js:60-100 | an unknown name has kind none while `typeOf` and `indexOf` throw their errors; a known one gives the kind, type and index of the entry found |
| JackSymbolTable.DefineThenLookup | projects/11/JackAnalyzer/symbolTable.js:16-100 | after `define`, when no table searched earlier holds the name, lookups give the kind, type and index just assigned |
| JackSymbolTable.DefineAllIndices | projects/11/JackAnalyzer/symbolTable.js:16-44 | fresh distinct names of one kind get the indices n, n+1, ... in order, n the count before the first |
| JackSymbolTable.DefineAllKeeps | projects/11/JackAnalyzer/symbolTable.js:16-44 | defining other names leaves an entry as it was |
| JackSymbolTable.RedefinitionSharesIndex | projects/11/JackAnalyzer/symbolTable.js:16-44 | a name defined again takes the current count as index and does not raise it, so the next fresh name gets the same index |
| JackSymbolTable.DefineEachKeeps | projects/11/JackCompiler/compilationEngine.js:181-195 | defining a list of declarations whose names all differ from a name succeeds on a valid kind and leaves that name's entry as it was |
| JackSymbolTable.DefineEachIndices | projects/11/JackCompiler/compilationEngine.js:181-195 | fresh distinct declarations of one kind get the indices n, n+1, ... in order, each with its own type, n the count before the first, and the kind's count grows by their number |
| JackSymbolTable.SymbolTable.constructor | projects/11/JackAnalyzer/symbolTable.js:4-9 | the four tables start empty |
| JackSymbolTable.SymbolTable.StartSubroutine | projects/11/JackAnalyzer/symbolTable.js:11-14 | empties the argument and var tables and keeps the static and field tables |
| JackSymbolTable.SymbolTable.Define | projects/11/JackAnalyzer/symbolTable.js:16-44 | on a valid kind the new tables are those `Define` gives; on any other kind it throws and changes nothing |
| JackSymbolTable.SymbolTable.VarCount | projects/11/JackAnalyzer/symbolTable.js:46-58 | the size of the table of the kind asked for, and the `invalid kind for varCount` error exactly for any other kind |
| JackSymbolTable.SymbolTable.KindOf | projects/11/JackAnalyzer/symbolTable.js:60-72 | the kind of the entry found searching the argument, var, static and field tables in that order; kind none exactly for a name in no table |
| JackSymbolTable.SymbolTable.TypeOf | projects/11/JackAnalyzer/symbolTable.js:74-86 | the type of the entry found in the same search order; the `typeOf` error exactly for a name in no table |
| JackSymbolTable.SymbolTable.IndexOf | projects/11/JackAnalyzer/symbolTable.js:88-100 | the index of the entry found in the same search order; the `indexOf` error exactly for a name in no table |
| JackLexicon.StringConstantOf | projects/11/JackAnalyzer/jackTokenizer.js:52-95 | text between two quotes with no quote or line break inside matches the string-constant pattern |
| JackLexicon.ClassesOverlapOnlyOnKeywords | projects/11/JackAnalyzer/jackTokenizer.js:86-100 | every keyword also has the form of an identifier, and no other two token classes share a text |
| JackLexicon.TokenTypeSpec | projects/11/JackAnalyzer/jackTokenizer.js:86-100 | `tokenType` answers keyword, symbol, integer (digits up to 32767), identifier (non-keyword) or string exactly for those texts, and throws exactly for an undefined token or a text of no class |
| JackLexicon.TokenIfSpec | projects/11/JackAnalyzer/jackTokenizer.js:102-120 | `keyWord`, `symbol`, `identifier` and `intVal` give the token when the type matches, `undefined` for another type and the exception of `tokenType` when it throws |
| JackLexicon.StringValOf | projects/11/JackAnalyzer/jackTokenizer.js:122-125 | `stringVal` gives the text inside the quotes exactly for a string constant, `undefined` for another type, and throws with `tokenType` |
| JackLexicon.EscapeReadsBack | projects/10/JackAnalyzer/jackTokenizer.js:111-122 | the XML spelling of a symbol holds no `<` or `>`, differs from it exactly for `<`, `>` and `&`, and reads back to it |
| JackLexicon.SymbolIndex | projects/11/JackAnalyzer/jackTokenizer.js:34-35 | `unit.match(reg).index` is the first position of a symbol character, -1 when there is none |
| JackLexicon.ConcatOfAppend | projects/11/JackAnalyzer/jackTokenizer.js:32-46 | the text of two token lists joined is the two texts joined |
| JackLexicon.HeadTokensSpec | projects/11/JackAnalyzer/jackTokenizer.js:34-40 | one step of `parserUnit` pushes the text before the first symbol (when not empty) and the symbol, which lay end to end to the unit up to the symbol |
| JackLexicon.UnitTokensSpec | projects/11/JackAnalyzer/jackTokenizer.js:32-46 | the tokens `parserUnit` pushes lay end to end to the unit, and each is one symbol or a run without symbols |
| JackTokenizer10.ExtraKeptLineIsEmpty | projects/10/JackAnalyzer/jackTokenizer.js:20-27 | the blank and indented `//` lines this filter keeps, and the projects/11 filter drops, clean to the empty line and yield no token |
| JackTokenizer10.BlankLineCleansEmpty | projects/10/JackAnalyzer/jackTokenizer.js:25-27 | a line that is blank once trimmed cleans to the empty line |
| JackTokenizer10.CommentLineCleansEmpty | projects/10/JackAnalyzer/jackTokenizer.js:25-27 | a line that starts with `//` once trimmed cleans to the empty line |
| JackTokenizer10.LinePass | projects/10/JackAnalyzer/jackTokenizer.js:34-72 | one pass of the `while (line)` loop makes the line strictly shorter, or finds an unclosed quote |
| JackTokenizer10.PassLine | projects/10/JackAnalyzer/jackTokenizer.js:35-71 | the loop body pushes the tokens and leaves the rest `LinePass` gives |
| JackTokenizer10.TokenizeLine | projects/10/JackAnalyzer/jackTokenizer.js:34-72 | the `while (line)` loop pushes the tokens `LineTokens` gives |
| JackTokenizer10.TokenizeLines | projects/10/JackAnalyzer/jackTokenizer.js:33-73 | the loop over all cleaned lines pushes their tokens in order |
| JackTokenizer10.QuotePass | projects/10/JackAnalyzer/jackTokenizer.js:35-38 | a line opening a quote pushes the text up to the next quote and goes on with the trimmed rest; an unclosed quote makes no progress |
| JackTokenizer10.QuotePassShape | projects/10/JackAnalyzer/jackTokenizer.js:35-38 | the quote branch pushes a string constant |
| JackTokenizer10.SpacePassShape | projects/10/JackAnalyzer/jackTokenizer.js:39-56 | the space branch pushes symbols or space-free runs without symbols |
| JackTokenizer10.WholePassShape | projects/10/JackAnalyzer/jackTokenizer.js:57-71 | the last branch pushes symbols or space-free runs without symbols |
| JackTokenizer10.PassShape | projects/10/JackAnalyzer/jackTokenizer.js:34-72 | every pass pushes line tokens and leaves no line break |
| JackTokenizer10.LineTokensShape | projects/10/JackAnalyzer/jackTokenizer.js:34-72 | every token of a line is a string constant, a symbol or a space-free run without symbols |
| JackTokenizer10.LinesTokensShape | projects/10/JackAnalyzer/jackTokenizer.js:33-73 | every token of the cleaned lines is a line token |
| JackTokenizer10.CleanLinesAvoid | projects/10/JackAnalyzer/jackTokenizer.js:20-27 | cleaning adds no character to the lines |
| JackTokenizer10.TokensShape | projects/10/JackAnalyzer/jackTokenizer.js:11-77 | every token of a file is a string constant, a symbol, or a run without symbols or spaces |
| JackTokenizer10.SpacedStringSplit | projects/10/JackAnalyzer/jackTokenizer.js:39-42 | a string constant holding a space, after other text on the line, is cut at the space: no token of the pass holds a space |
| JackTokenizer10.SpacePass | projects/10/JackAnalyzer/jackTokenizer.js:39-56 | a line whose first space ends a run not starting with a quote pushes the run's tokens and goes on with the trimmed rest |
| JackTokenizer10.SymbolOf | projects/10/JackAnalyzer/jackTokenizer.js:111-122 | `symbol()` gives the XML-escaped symbol exactly for a symbol, `undefined` for another type, and throws with `tokenType` |
| JackTokenizer10.Tokenizer.constructor | projects/10/JackAnalyzer/jackTokenizer.js:11-77 | the tokens are those of the file and the cursor is at the first |
| JackTokenizer10.Tokenizer.Advance | projects/10/JackAnalyzer/jackTokenizer.js:79-88 | moves the cursor one token on while tokens are left, does nothing otherwise, and keeps the cursor within the list |
| JackTokenizer11.StripBlockComments | projects/11/JackAnalyzer/jackTokenizer.js:14-18 | what the comment loop leaves holds no `/*` |
| JackTokenizer11.RemoveBlockComments | projects/11/JackAnalyzer/jackTokenizer.js:14-18 | the loop leaves the text `StripBlockComments` gives, with no `/*` left |
| JackTokenizer11.CommentRemoved | projects/11/JackAnalyzer/jackTokenizer.js:14-18 | a pass removes the first comment, opener and closer included, when no closer comes before the opener's own |
| JackTokenizer11.LinePass | projects/11/JackAnalyzer/jackTokenizer.js:49-68 | one pass of the `while (line)` loop makes the line strictly shorter, or finds an unclosed quote |
| JackTokenizer11.PushedHead | projects/11/JackAnalyzer/jackTokenizer.js:34-40 | what one step of `parserUnit` pushes, followed by the tokens of the rest, are the tokens of the unit |
| JackTokenizer11.ParserUnit | projects/11/JackAnalyzer/jackTokenizer.js:32-46 | `parserUnit` pushes exactly the tokens `UnitTokens` gives |
| JackTokenizer11.PassLine | projects/11/JackAnalyzer/jackTokenizer.js:50-67 | the loop body pushes the tokens and leaves the rest `LinePass` gives |
| JackTokenizer11.TokenizeLine | projects/11/JackAnalyzer/jackTokenizer.js:49-68 | the `while (line)` loop pushes the tokens `LineTokens` gives |
| JackTokenizer11.TokenizeLines | projects/11/JackAnalyzer/jackTokenizer.js:48-69 | the loop over all cleaned lines pushes their tokens in order |
| JackTokenizer11.UnitTokensAvoid | projects/11/JackAnalyzer/jackTokenizer.js:32-46 | the tokens of a unit hold no character the unit lacks |
| JackTokenizer11.UnitLineTokens | projects/11/JackAnalyzer/jackTokenizer.js:32-46 | a space-free unit yields only line tokens |
| JackTokenizer11.QuotedToken | projects/11/JackAnalyzer/jackTokenizer.js:52-55 | the quote branch cuts a string constant, or finds no closing quote |
| JackTokenizer11.QuotePassShape | projects/11/JackAnalyzer/jackTokenizer.js:52-55 | the quote branch pushes a string constant and leaves no line break |
| JackTokenizer11.QuotedPassShape | projects/11/JackAnalyzer/jackTokenizer.js:52-55 | the quote branch's pass is made of line tokens |
| JackTokenizer11.QuoteUnitPassShape | projects/11/JackAnalyzer/jackTokenizer.js:56-59 | the branch for a quote before the first space pushes line tokens |
| JackTokenizer11.SpaceUnitPassShape | projects/11/JackAnalyzer/jackTokenizer.js:60-63 | the space branch pushes line tokens |
| JackTokenizer11.PassShape | projects/11/JackAnalyzer/jackTokenizer.js:49-68 | every pass pushes line tokens and leaves no line break |
| JackTokenizer11.LineTokensShape | projects/11/JackAnalyzer/jackTokenizer.js:49-68 | every token of a line is a line token |
| JackTokenizer11.LinesTokensShape | projects/11/JackAnalyzer/jackTokenizer.js:48-69 | every token of the cleaned lines is a line token |
| JackTokenizer11.CleanLinesAvoid | projects/11/JackAnalyzer/jackTokenizer.js:19-26 | cleaning adds no character to the lines |
| JackTokenizer11.TokensShape | projects/11/JackAnalyzer/jackTokenizer.js:10-73 | every token of a file is a string constant, a symbol, or a run without symbols or spaces |
| JackTokenizer11.SpaceFreeLineSplitsStrings | projects/11/JackAnalyzer/jackTokenizer.js:64-67 | a space-free line not starting with a quote is cut at its symbols as a whole, so no string constant holding a symbol survives |
| JackTokenizer11.LinePassIntended | projects/11/JackAnalyzer/jackTokenizer.js:49-68 | the intended pass also makes the line strictly shorter, or finds an unclosed quote |
| JackTokenizer11.IntendedKeepsStringConstant | projects/11/JackAnalyzer/jackTokenizer.js:49-68 | under the intended pass a string constant after a run is one token, whatever it holds |
| JackTokenizer11.StringAfterUnitPass | projects/11/JackAnalyzer/jackTokenizer.js:56-59 | the intended first pass pushes the run's tokens and leaves the line from its string constant on |
| JackTokenizer11.QuoteAfterUnit | projects/11/JackAnalyzer/jackTokenizer.js:56-59 | a run, a string constant and a rest are the run followed by a trimmed text starting with the quote |
| JackTokenizer11.TokensAfterPass | projects/11/JackAnalyzer/jackTokenizer.js:49-68 | the intended tokens of a line are those of its first pass, then those of the rest |
| JackTokenizer11.UnitBeforeQuotePass | projects/11/JackAnalyzer/jackTokenizer.js:56-59 | the intended pass over a run followed by a trimmed quoted text cuts before the quote |
| JackTokenizer11.QuoteFirst | projects/11/JackAnalyzer/jackTokenizer.js:52-55 | a line that starts with a string constant yields it first |
| JackTokenizer11.ClosingQuote | projects/11/JackAnalyzer/jackTokenizer.js:53 | the closing quote is the first quote after the opening one |
| JackTokenizer11.IntendedOnQuote | projects/11/JackAnalyzer/jackTokenizer.js:52-55 | the intended and written passes agree on lines that start with a quote |
| JackTokenizer11.QuotePass | projects/11/JackAnalyzer/jackTokenizer.js:52-55 | a line opening a quote pushes the text up to the next quote and goes on with the trimmed rest; an unclosed quote makes no progress |
| JackTokenizer11.SpacedStringKept | projects/11/JackAnalyzer/jackTokenizer.js:56-59 | a string constant holding a space after a run on the line stays one token |
| JackTokenizer11.SpacedStringAfterUnitPass | projects/11/JackAnalyzer/jackTokenizer.js:56-59 | the first pass over such a line pushes the run's tokens and leaves the line from its string constant on |
| JackTokenizer11.WrittenTokensAfterPass | projects/11/JackAnalyzer/jackTokenizer.js:49-68 | the tokens of a line are those of its first pass, then those of the rest |
| JackTokenizer11.UnitBeforeSpacedQuotePass | projects/11/JackAnalyzer/jackTokenizer.js:56-59 | the pass over a run followed by a trimmed quoted text holding a space cuts before the quote |
| JackTokenizer11.QuoteFirstWritten | projects/11/JackAnalyzer/jackTokenizer.js:52-55 | a line that starts with a string constant yields it first |
| JackTokenizer11.Tokenizer.constructor | projects/11/JackAnalyzer/jackTokenizer.js:10-73 | the tokens are those of the file and the cursor is at the first |
| JackTokenizer11.Tokenizer.Advance | projects/11/JackAnalyzer/jackTokenizer.js:79-84 | moves the cursor one token on while tokens are left, does nothing otherwise, and keeps the cursor within the list |
| JackTokenizer10.Tokenizer.HasMoreTokens | projects/10/JackAnalyzer/jackTokenizer.js:79-81 | tokens remain exactly when there is a current token |
| JackTokenizer10.Tokenizer.TokenType | projects/10/JackAnalyzer/jackTokenizer.js:90-104 | keyword exactly for a keyword; symbol, integer, identifier (not a keyword) and string only for tokens of that class; the error exactly when there is no current token or it is of no class |
| JackTokenizer10.Tokenizer.KeyWord | projects/10/JackAnalyzer/jackTokenizer.js:106-109 | the error exactly when `tokenType` throws; the token exactly when it is a keyword; `undefined` for every other class |
| JackTokenizer10.Tokenizer.Symbol | projects/10/JackAnalyzer/jackTokenizer.js:111-122 | the error exactly when `tokenType` throws; a text exactly for a symbol, and that text is the symbol XML-escaped (unescaping gives the token back) |
| JackTokenizer10.Tokenizer.Identifier | projects/10/JackAnalyzer/jackTokenizer.js:124-127 | the error exactly when `tokenType` throws; the token exactly when it is an identifier; `undefined` for every other class |
| JackTokenizer10.Tokenizer.IntVal | projects/10/JackAnalyzer/jackTokenizer.js:129-132 | the error exactly when `tokenType` throws; the token exactly when it is an integer constant; `undefined` for every other class |
| JackTokenizer10.Tokenizer.StringVal | projects/10/JackAnalyzer/jackTokenizer.js:134-137 | the error exactly when `tokenType` throws; a text exactly for a string constant, and that text is the constant without its two quotes |
| JackTokenizer11.Tokenizer.HasMoreTokens | projects/11/JackAnalyzer/jackTokenizer.js:75-77 | tokens remain exactly when there is a current token |
| JackTokenizer11.Tokenizer.TokenType | projects/11/JackAnalyzer/jackTokenizer.js:86-100 | keyword exactly for a keyword; symbol, integer, identifier (not a keyword) and string only for tokens of that class; the error exactly when there is no current token or it is of no class |
| JackTokenizer11.Tokenizer.KeyWord | projects/11/JackAnalyzer/jackTokenizer.js:102-105 | the error exactly when `tokenType` throws; the token exactly when it is a keyword; `undefined` for every other class |
| JackTokenizer11.Tokenizer.Symbol | projects/11/JackAnalyzer/jackTokenizer.js:107-110 | the error exactly when `tokenType` throws; the token exactly when it is a symbol; `undefined` for every other class |
| JackTokenizer11.Tokenizer.Identifier | projects/11/JackAnalyzer/jackTokenizer.js:112-115 | the error exactly when `tokenType` throws; the token exactly when it is an identifier; `undefined` for every other class |
| JackTokenizer11.Tokenizer.IntVal | projects/11/JackAnalyzer/jackTokenizer.js:117-120 | the error exactly when `tokenType` throws; the token exactly when it is an integer constant; `undefined` for every other class |
| JackTokenizer11.Tokenizer.StringVal | projects/11/JackAnalyzer/jackTokenizer.js:122-125 | the error exactly when `tokenType` throws; a text exactly for a string constant, and that text is the constant without its two quotes |
| JackGrammar.LexLength | projects/11/JackCompiler/compilationEngine.js:111-117 | every token gets a type: the classified list is as long as the token list |
| JackGrammar.LexAt | projects/11/JackCompiler/compilationEngine.js:111-117 | the type stored with the i-th token is what `tokenType()` gives for it |
| JackGrammar.LexTexts | projects/11/JackCompiler/compilationEngine.js:111-117 | the classified list keeps the texts of the tokens in order |
| JackGrammar.LexedCursor | projects/11/JackCompiler/compilationEngine.js:111-117 | the current token and its type under the cursor are those of the token list |
| JackGrammar.StringValIsUnquoted | projects/11/JackCompiler/compilationEngine.js:89-93 | `stringVal()` of a string constant under the cursor is its text without quotes |
| JackGrammar.Keyword | projects/11/JackCompiler/compilationEngine.js:54-62 | succeeds exactly when the current token is a keyword of the list, then consumes exactly it; the table and indentation stay |
| JackGrammar.Symbol | projects/11/JackCompiler/compilationEngine.js:64-81 | succeeds exactly when the current token is a symbol of the list, then consumes exactly it; the table and indentation stay |
| JackGrammar.IntegerConstant | projects/11/JackCompiler/compilationEngine.js:83-87 | on success consumes exactly one token; the table and indentation stay |
| JackGrammar.StringConstant | projects/11/JackCompiler/compilationEngine.js:89-93 | on success consumes exactly one token; the table and indentation stay |
| JackGrammar.Identifier | projects/11/JackCompiler/compilationEngine.js:95-99 | succeeds exactly when the current token is an identifier, then consumes exactly it; the table and indentation stay |
| JackGrammar.VarName | projects/11/JackCompiler/compilationEngine.js:101-109 | on success consumes exactly one token and keeps the indentation |
| JackGrammar.DeclaredName | projects/11/JackCompiler/compilationEngine.js:101-109 | on success consumes exactly one token and keeps the indentation; the analyzer leaves the table |
| JackGrammar.Type | projects/11/JackCompiler/compilationEngine.js:154-160 | on success consumes exactly one token; the table and indentation stay |
| JackGrammar.Class | projects/11/JackCompiler/compilationEngine.js:119-134 | on success consumes at least one token, stays within the list, leaves the indentation where it was and, in the analyzer, the symbol table unchanged |
| JackGrammar.ClassVarDecs | projects/11/JackCompiler/compilationEngine.js:125-127 | on success consumes tokens without passing the end of the list, leaves the indentation where it was and, in the analyzer, the symbol table unchanged |
| JackGrammar.Subroutines | projects/11/JackCompiler/compilationEngine.js:128-130 | on success consumes tokens without passing the end of the list, leaves the indentation where it was and, in the analyzer, the symbol table unchanged |
| JackGrammar.ClassVarDec | projects/11/JackCompiler/compilationEngine.js:136-152 | on success consumes at least one token, stays within the list, leaves the indentation where it was and, in the analyzer, the symbol table unchanged |
| JackGrammar.ClassVarNames | projects/11/JackCompiler/compilationEngine.js:145-148 | on success consumes tokens without passing the end of the list, leaves the indentation where it was and, in the analyzer, the symbol table unchanged |
| JackGrammar.Subroutine | projects/11/JackCompiler/compilationEngine.js:162-179 | on success consumes at least one token, stays within the list, leaves the indentation where it was and, in the analyzer, the symbol table unchanged |
| JackGrammar.ReturnType | projects/11/JackCompiler/compilationEngine.js:167-171 | on success consumes exactly one token; the table and indentation stay |
| JackGrammar.ParameterClause | projects/11/JackCompiler/compilationEngine.js:173-175 | on success consumes at least one token, stays within the list, leaves the indentation where it was and, in the analyzer, the symbol table unchanged |
| JackGrammar.ParameterList | projects/11/JackCompiler/compilationEngine.js:181-198 | on success consumes tokens without passing the end of the list, leaves the indentation where it was and, in the analyzer, the symbol table unchanged |
| JackGrammar.Parameter | projects/11/JackCompiler/compilationEngine.js:185-193 | on success consumes exactly two tokens, leaves the indentation where it was and, in the analyzer, the symbol table unchanged |
| JackGrammar.Parameters | projects/11/JackCompiler/compilationEngine.js:184-195 | on success consumes tokens without passing the end of the list, leaves the indentation where it was and, in the analyzer, the symbol table unchanged |
| JackGrammar.MoreParameters | projects/11/JackCompiler/compilationEngine.js:189-194 | on success consumes tokens without passing the end of the list, leaves the indentation where it was and, in the analyzer, the symbol table unchanged |
| JackGrammar.SubroutineBody | projects/11/JackCompiler/compilationEngine.js:200-211 | on success consumes at least one token, stays within the list, leaves the indentation where it was and, in the analyzer, the symbol table unchanged |
| JackGrammar.VarDecs | projects/11/JackCompiler/compilationEngine.js:204-206 | on success consumes tokens without passing the end of the list, leaves the indentation where it was and, in the analyzer, the symbol table unchanged |
| JackGrammar.VarDec | projects/11/JackCompiler/compilationEngine.js:213-228 | on success consumes at least one token, stays within the list, leaves the indentation where it was and, in the analyzer, the symbol table unchanged |
| JackGrammar.VarNames | projects/11/JackCompiler/compilationEngine.js:221-224 | on success consumes tokens without passing the end of the list, leaves the indentation where it was and, in the analyzer, the symbol table unchanged |
| JackGrammar.Statements | projects/11/JackCompiler/compilationEngine.js:230-250 | on success consumes tokens without passing the end of the list, leaves the indentation where it was and, in the analyzer, the symbol table unchanged |
| JackGrammar.StatementList | projects/11/JackCompiler/compilationEngine.js:233-247 | on success consumes tokens without passing the end of the list, leaves the indentation where it was and, in the analyzer, the symbol table unchanged |
| JackGrammar.Statement | projects/11/JackCompiler/compilationEngine.js:234-246 | on success consumes at least one token, stays within the list, leaves the indentation where it was and, in the analyzer, the symbol table unchanged |
| JackGrammar.Do | projects/11/JackCompiler/compilationEngine.js:252-260 | on success consumes at least one token, stays within the list, leaves the indentation where it was and, in the analyzer, the symbol table unchanged |
| JackGrammar.Let | projects/11/JackCompiler/compilationEngine.js:262-277 | on success consumes at least one token, stays within the list, leaves the indentation where it was and, in the analyzer, the symbol table unchanged |
| JackGrammar.LetTarget | projects/11/JackCompiler/compilationEngine.js:265-271 | on success consumes at least one token, stays within the list, leaves the indentation where it was and, in the analyzer, the symbol table unchanged |
| JackGrammar.LetIndices | projects/11/JackCompiler/compilationEngine.js:267-271 | on success consumes tokens without passing the end of the list, leaves the indentation where it was and, in the analyzer, the symbol table unchanged |
| JackGrammar.While | projects/11/JackCompiler/compilationEngine.js:279-291 | on success consumes at least one token, stays within the list, leaves the indentation where it was and, in the analyzer, the symbol table unchanged |
| JackGrammar.Return | projects/11/JackCompiler/compilationEngine.js:293-303 | on success consumes at least one token, stays within the list, leaves the indentation where it was and, in the analyzer, the symbol table unchanged |
| JackGrammar.ReturnValues | projects/11/JackCompiler/compilationEngine.js:297-299 | on success consumes tokens without passing the end of the list, leaves the indentation where it was and, in the analyzer, the symbol table unchanged |
| JackGrammar.If | projects/11/JackCompiler/compilationEngine.js:305-324 | on success consumes at least one token, stays within the list, leaves the indentation where it was and, in the analyzer, the symbol table unchanged |
| JackGrammar.Block | projects/11/JackCompiler/compilationEngine.js:312-314 | on success consumes at least one token, stays within the list, leaves the indentation where it was and, in the analyzer, the symbol table unchanged |
| JackGrammar.Else | projects/11/JackCompiler/compilationEngine.js:316-321 | on success consumes tokens without passing the end of the list, leaves the indentation where it was and, in the analyzer, the symbol table unchanged |
| JackGrammar.SubroutineCall | projects/11/JackCompiler/compilationEngine.js:326-336 | on success consumes at least one token, stays within the list, leaves the indentation where it was and, in the analyzer, the symbol table unchanged |
| JackGrammar.Qualifier | projects/11/JackCompiler/compilationEngine.js:328-331 | on success consumes exactly two tokens; the table and indentation stay |
| JackGrammar.Arguments | projects/11/JackCompiler/compilationEngine.js:333-335 | on success consumes at least one token, stays within the list, leaves the indentation where it was and, in the analyzer, the symbol table unchanged |
| JackGrammar.ExpressionList | projects/11/JackCompiler/compilationEngine.js:338-351 | on success consumes tokens without passing the end of the list, leaves the indentation where it was and, in the analyzer, the symbol table unchanged |
| JackGrammar.ExpressionLoop | projects/11/JackCompiler/compilationEngine.js:341-348 | on success consumes tokens without passing the end of the list, leaves the indentation where it was and, in the analyzer, the symbol table unchanged |
| JackGrammar.MoreExpressions | projects/11/JackCompiler/compilationEngine.js:344-347 | on success consumes tokens without passing the end of the list, leaves the indentation where it was and, in the analyzer, the symbol table unchanged |
| JackGrammar.Expression | projects/11/JackCompiler/compilationEngine.js:353-363 | on success consumes at least one token, stays within the list, leaves the indentation where it was and, in the analyzer, the symbol table unchanged |
| JackGrammar.OpTerms | projects/11/JackCompiler/compilationEngine.js:357-360 | on success consumes tokens without passing the end of the list, leaves the indentation where it was and, in the analyzer, the symbol table unchanged |
| JackGrammar.Term | projects/11/JackCompiler/compilationEngine.js:365-408 | on success consumes at least one token, stays within the list, leaves the indentation where it was and, in the analyzer, the symbol table unchanged |
| JackGrammar.NameTerm | projects/11/JackCompiler/compilationEngine.js:374-395 | on success consumes at least one token, stays within the list, leaves the indentation where it was and, in the analyzer, the symbol table unchanged |
| JackGrammar.NameSuffix | projects/11/JackCompiler/compilationEngine.js:381-395 | on success consumes tokens without passing the end of the list, leaves the indentation where it was and, in the analyzer, the symbol table unchanged |
| JackGrammar.Parenthesized | projects/11/JackCompiler/compilationEngine.js:396-399 | on success consumes at least one token, stays within the list, leaves the indentation where it was and, in the analyzer, the symbol table unchanged |
| JackGrammar.Unary | projects/11/JackCompiler/compilationEngine.js:400-402 | on success consumes at least one token, stays within the list, leaves the indentation where it was and, in the analyzer, the symbol table unchanged |
| JackEngine.CompilationEngine.Cursor | projects/11/JackCompiler/compilationEngine.js:111-117 | the engine's current token and its type are those the grammar functions read at the cursor |
| JackEngine.CompilationEngine.constructor | projects/11/JackCompiler/compilationEngine.js:14-24 | tokenizes the text, starts with an empty table, no output and indentation 0, and ends as JackGrammar.Class gives for the whole token list |
| JackEngine.CompilationEngine.WriteElement | projects/11/JackCompiler/compilationEngine.js:26-29 | appends the line `<tag> value </tag>` at the current indentation |
| JackEngine.CompilationEngine.WriteIdentifier | projects/11/JackCompiler/compilationEngine.js:31-40 | appends the identifier line with the kind, type and index of the name, or throws `typeOf`'s error for an unknown name and writes nothing |
| JackEngine.CompilationEngine.WriteElementStart | projects/11/JackCompiler/compilationEngine.js:42-46 | appends `<tag>` at the current indentation and indents one step |
| JackEngine.CompilationEngine.WriteElementEnd | projects/11/JackCompiler/compilationEngine.js:48-52 | unindents one step and appends `</tag>` |
| JackEngine.CompilationEngine.CheckToken | projects/11/JackCompiler/compilationEngine.js:111-117 | succeeds exactly when the current token has the expected type, with the grammar's message otherwise; changes nothing |
| JackEngine.CompilationEngine.CompileKeyword | projects/11/JackCompiler/compilationEngine.js:54-62 | leaves the state, or throws the message, that JackGrammar.Keyword gives for the state before the call; the tokenizer stays valid |
| JackEngine.CompilationEngine.CompileSymbol | projects/11/JackCompiler/compilationEngine.js:64-81 | leaves the state, or throws the message, that JackGrammar.Symbol gives for the state before the call; the tokenizer stays valid |
| JackEngine.CompilationEngine.CompileIntegerConstant | projects/11/JackCompiler/compilationEngine.js:83-87 | leaves the state, or throws the message, that JackGrammar.IntegerConstant gives for the state before the call; the tokenizer stays valid |
| JackEngine.CompilationEngine.CompileStringConstant | projects/11/JackCompiler/compilationEngine.js:89-93 | leaves the state, or throws the message, that JackGrammar.StringConstant gives for the state before the call; the tokenizer stays valid |
| JackEngine.CompilationEngine.CompileIdentifier | projects/11/JackCompiler/compilationEngine.js:95-99 | leaves the state, or throws the message, that JackGrammar.Identifier gives for the state before the call; the tokenizer stays valid |
| JackEngine.CompilationEngine.CompileVarName | projects/11/JackCompiler/compilationEngine.js:101-109 | leaves the state, or throws the message, that JackGrammar.VarName gives for the state before the call; the tokenizer stays valid |
| JackEngine.CompilationEngine.CompileDeclaredName | projects/11/JackCompiler/compilationEngine.js:101-109 | leaves the state, or throws the message, that JackGrammar.DeclaredName gives for the state before the call; the tokenizer stays valid |
| JackEngine.CompilationEngine.CompileType | projects/11/JackCompiler/compilationEngine.js:154-160 | leaves the state, or throws the message, that JackGrammar.Type gives for the state before the call; the tokenizer stays valid |
| JackEngine.CompilationEngine.CompileClass | projects/11/JackCompiler/compilationEngine.js:119-134 | leaves the state, or throws the message, that JackGrammar.Class gives for the state before the call; the tokenizer stays valid |
| JackEngine.CompilationEngine.CompileClassVarDecs | projects/11/JackCompiler/compilationEngine.js:125-127 | leaves the state, or throws the message, that JackGrammar.ClassVarDecs gives for the state before the call; the tokenizer stays valid |
| JackEngine.CompilationEngine.CompileSubroutines | projects/11/JackCompiler/compilationEngine.js:128-130 | leaves the state, or throws the message, that JackGrammar.Subroutines gives for the state before the call; the tokenizer stays valid |
| JackEngine.CompilationEngine.CompileClassVarDec | projects/11/JackCompiler/compilationEngine.js:136-152 | leaves the state, or throws the message, that JackGrammar.ClassVarDec gives for the state before the call; the tokenizer stays valid |
| JackEngine.CompilationEngine.CompileClassVarNames | projects/11/JackCompiler/compilationEngine.js:145-148 | leaves the state, or throws the message, that JackGrammar.ClassVarNames gives for the state before the call; the tokenizer stays valid |
| JackEngine.CompilationEngine.CompileSubroutine | projects/11/JackCompiler/compilationEngine.js:162-179 | leaves the state, or throws the message, that JackGrammar.Subroutine gives for the state before the call; the tokenizer stays valid |
| JackEngine.CompilationEngine.CompileReturnType | projects/11/JackCompiler/compilationEngine.js:167-171 | leaves the state, or throws the message, that JackGrammar.ReturnType gives for the state before the call; the tokenizer stays valid |
| JackEngine.CompilationEngine.CompileParameterClause | projects/11/JackCompiler/compilationEngine.js:173-175 | leaves the state, or throws the message, that JackGrammar.ParameterClause gives for the state before the call; the tokenizer stays valid |
| JackEngine.CompilationEngine.CompileParameter | projects/11/JackCompiler/compilationEngine.js:185-187 | leaves the state, or throws the message, that JackGrammar.Parameter gives for the state before the call; the tokenizer stays valid |
| JackEngine.CompilationEngine.CompileParameterList | projects/11/JackCompiler/compilationEngine.js:181-198 | leaves the state, or throws the message, that JackGrammar.ParameterList gives for the state before the call; the tokenizer stays valid |
| JackEngine.CompilationEngine.CompileMoreParameters | projects/11/JackCompiler/compilationEngine.js:189-194 | leaves the state, or throws the message, that JackGrammar.MoreParameters gives for the state before the call; the tokenizer stays valid |
| JackEngine.CompilationEngine.CompileSubroutineBody | projects/11/JackCompiler/compilationEngine.js:200-211 | leaves the state, or throws the message, that JackGrammar.SubroutineBody gives for the state before the call; the tokenizer stays valid |
| JackEngine.CompilationEngine.CompileVarDecs | projects/11/JackCompiler/compilationEngine.js:204-206 | leaves the state, or throws the message, that JackGrammar.VarDecs gives for the state before the call; the tokenizer stays valid |
| JackEngine.CompilationEngine.CompileVarDec | projects/11/JackCompiler/compilationEngine.js:213-228 | leaves the state, or throws the message, that JackGrammar.VarDec gives for the state before the call; the tokenizer stays valid |
| JackEngine.CompilationEngine.CompileVarNames | projects/11/JackCompiler/compilationEngine.js:221-224 | leaves the state, or throws the message, that JackGrammar.VarNames gives for the state before the call; the tokenizer stays valid |
| JackEngine.CompilationEngine.CompileStatements | projects/11/JackCompiler/compilationEngine.js:230-250 | leaves the state, or throws the message, that JackGrammar.Statements gives for the state before the call; the tokenizer stays valid |
| JackEngine.CompilationEngine.CompileStatement | projects/11/JackCompiler/compilationEngine.js:234-246 | leaves the state, or throws the message, that JackGrammar.Statement gives for the state before the call; the tokenizer stays valid |
| JackEngine.CompilationEngine.CompileDo | projects/11/JackCompiler/compilationEngine.js:252-260 | leaves the state, or throws the message, that JackGrammar.Do gives for the state before the call; the tokenizer stays valid |
| JackEngine.CompilationEngine.CompileLet | projects/11/JackCompiler/compilationEngine.js:262-277 | leaves the state, or throws the message, that JackGrammar.Let gives for the state before the call; the tokenizer stays valid |
| JackEngine.CompilationEngine.CompileLetTarget | projects/11/JackCompiler/compilationEngine.js:265-271 | leaves the state, or throws the message, that JackGrammar.LetTarget gives for the state before the call; the tokenizer stays valid |
| JackEngine.CompilationEngine.CompileWhile | projects/11/JackCompiler/compilationEngine.js:279-291 | leaves the state, or throws the message, that JackGrammar.While gives for the state before the call; the tokenizer stays valid |
| JackEngine.CompilationEngine.CompileReturn | projects/11/JackCompiler/compilationEngine.js:293-303 | leaves the state, or throws the message, that JackGrammar.Return gives for the state before the call; the tokenizer stays valid |
| JackEngine.CompilationEngine.CompileIf | projects/11/JackCompiler/compilationEngine.js:305-324 | leaves the state, or throws the message, that JackGrammar.If gives for the state before the call; the tokenizer stays valid |
| JackEngine.CompilationEngine.CompileBlock | projects/11/JackCompiler/compilationEngine.js:312-314 | leaves the state, or throws the message, that JackGrammar.Block gives for the state before the call; the tokenizer stays valid |
| JackEngine.CompilationEngine.CompileElse | projects/11/JackCompiler/compilationEngine.js:316-321 | leaves the state, or throws the message, that JackGrammar.Else gives for the state before the call; the tokenizer stays valid |
| JackEngine.CompilationEngine.CompileSubroutineCall | projects/11/JackCompiler/compilationEngine.js:326-336 | leaves the state, or throws the message, that JackGrammar.SubroutineCall gives for the state before the call; the tokenizer stays valid |
| JackEngine.CompilationEngine.CompileExpressionList | projects/11/JackCompiler/compilationEngine.js:338-351 | leaves the state, or throws the message, that JackGrammar.ExpressionList gives for the state before the call; the tokenizer stays valid |
| JackEngine.CompilationEngine.CompileMoreExpressions | projects/11/JackCompiler/compilationEngine.js:344-347 | leaves the state, or throws the message, that JackGrammar.MoreExpressions gives for the state before the call; the tokenizer stays valid |
| JackEngine.CompilationEngine.CompileExpression | projects/11/JackCompiler/compilationEngine.js:353-363 | leaves the state, or throws the message, that JackGrammar.Expression gives for the state before the call; the tokenizer stays valid |
| JackEngine.CompilationEngine.CompileTerm | projects/11/JackCompiler/compilationEngine.js:365-408 | leaves the state, or throws the message, that JackGrammar.Term gives for the state before the call; the tokenizer stays valid |
| JackEngine.CompilationEngine.CompileNameTerm | projects/11/JackCompiler/compilationEngine.js:374-395 | leaves the state, or throws the message, that JackGrammar.NameTerm gives for the state before the call; the tokenizer stays valid |
| JackEngine.CompilationEngine.CompileNameSuffix | projects/11/JackCompiler/compilationEngine.js:381-395 | leaves the state, or throws the message, that JackGrammar.NameSuffix gives for the state before the call; the tokenizer stays valid |
| JackEngine.CompilationEngine.CompileArguments | projects/11/JackCompiler/compilationEngine.js:333-335 | leaves the state, or throws the message, that JackGrammar.Arguments gives for the state before the call; the tokenizer stays valid |
| JackEngine.CompilationEngine.CompileParenthesized | projects/11/JackCompiler/compilationEngine.js:396-399 | leaves the state, or throws the message, that JackGrammar.Parenthesized gives for the state before the call; the tokenizer stays valid |
| JackEngine.CompilationEngine.CompileUnary | projects/11/JackCompiler/compilationEngine.js:400-402 | leaves the state, or throws the message, that JackGrammar.Unary gives for the state before the call; the tokenizer stays valid |
| JackGrammarProperties.LexedKeyword | projects/11/JackCompiler/compilationEngine.js:54-62 | over the tokenizer's list `compileKeyword` succeeds exactly when the current token is one of the expected words and a keyword |
| JackGrammarProperties.LexedSymbol | projects/11/JackCompiler/compilationEngine.js:64-81 | over the tokenizer's list `compileSymbol` succeeds exactly when the current token is one of the expected symbols and a symbol |
| JackGrammarProperties.LexedCheckToken | projects/11/JackCompiler/compilationEngine.js:111-117 | over the tokenizer's list `checkToken(t)` passes exactly when `tokenType()` gives t |
| JackGrammarProperties.KeywordLine | projects/11/JackAnalyzer/compilationEngine.js:37-45 | an accepted keyword adds one `<keyword>` line at the current depth and moves the cursor one token; nothing else changes |
| JackGrammarProperties.SymbolLine | projects/11/JackAnalyzer/compilationEngine.js:47-64 | an accepted symbol adds one `<symbol>` line holding its escaped form and moves the cursor one token; nothing else changes |
| JackGrammarProperties.ClassShape | projects/11/JackCompiler/compilationEngine.js:119-134 | an accepted class is `class`, a name, `{`, declarations and `}` |
| JackGrammarProperties.ClassRejects | projects/11/JackAnalyzer/compilationEngine.js:92-107 | any first token other than `class` makes `compileClass` throw |
| JackGrammarProperties.ClassVarDecsEnd | projects/11/JackCompiler/compilationEngine.js:125-127 | the class-variable loop ends at a token that is neither `static` nor `field` |
| JackGrammarProperties.SubroutinesEnd | projects/11/JackCompiler/compilationEngine.js:128-130 | the subroutine loop ends at a token that is not `constructor`, `function` or `method` |
| JackGrammarProperties.DeclaredNameDefines | projects/11/JackCompiler/compilationEngine.js:101-109 | a declared name of the compiler is defined with the declaration's type and kind |
| JackGrammarProperties.DefineAllCons | projects/11/JackCompiler/compilationEngine.js:101-109 | defining one name and then a list is defining the longer list |
| JackGrammarProperties.VarNamesDefine | projects/11/JackCompiler/compilationEngine.js:221-224 | the `, name` loop of `compileVarDec` defines each name in order with the shared type and kind |
| JackGrammarProperties.ClassVarNamesDefine | projects/11/JackCompiler/compilationEngine.js:145-148 | the `, name` loop of `compileClassVarDec` defines each name in order with the shared type and kind |
| JackGrammarProperties.FirstAndMoreNames | projects/11/JackCompiler/compilationEngine.js:143-224 | a first name followed by the loop's names defines all the names of the declaration |
| JackGrammarProperties.VarDecNames | projects/11/JackCompiler/compilationEngine.js:217-224 | the names of a `var` statement from the first on take the tables from before to after the statement |
| JackGrammarProperties.ClassVarDecNames | projects/11/JackCompiler/compilationEngine.js:139-148 | the names of a class variable declaration from the first on take the tables from before to after it |
| JackGrammarProperties.VarDecDefines | projects/11/JackCompiler/compilationEngine.js:213-228 | an accepted `var` statement of the compiler defines every name it lists, in order, as a `var` of the type token after `var` |
| JackGrammarProperties.VarDecSteps | projects/11/JackCompiler/compilationEngine.js:213-228 | an accepted `var` statement is `var`, a type, a first name, more names and `;`, with the table changed by the names only |
| JackGrammarProperties.ClassVarDecDefines | projects/11/JackCompiler/compilationEngine.js:136-152 | an accepted class variable declaration of the compiler defines every name it lists, in order, with its kind token (`static` or `field`) and its type token |
| JackGrammarProperties.ClassVarDecSteps | projects/11/JackCompiler/compilationEngine.js:136-152 | an accepted class variable declaration is a kind, a type, a first name, more names and `;`, with the table changed by the names only |
| JackGrammarProperties.SubroutineForgetsScope | projects/11/JackCompiler/compilationEngine.js:162-163 | what `compileSubroutine` does cannot depend on the argument and var tables it finds |
| JackGrammarProperties.SubroutineParametersStartEmpty | projects/11/JackCompiler/compilationEngine.js:162-175 | the parameter list is compiled with an emptied argument table, three tokens after the subroutine keyword |
| JackGrammarProperties.FirstParameter | projects/11/JackCompiler/compilationEngine.js:181-187 | in an empty argument table the first parameter is an `argument` of its type token with index 0 |
| JackGrammarProperties.ParameterListDefines | projects/11/JackCompiler/compilationEngine.js:181-195 | an accepted parameter list defines every (type, name) pair it consumed as an argument, in source order, and nothing else |
| JackGrammarProperties.ParameterListIndices | projects/11/JackCompiler/compilationEngine.js:181-195 | in a fresh argument table, parameters with distinct names are arguments 0, 1, 2, ... in source order, each with its own type, and there are no others |
| JackGrammarProperties.StatementListEnd | projects/11/JackAnalyzer/compilationEngine.js:195-215 | the statement loop ends at the first token that is not `let`, `if`, `while`, `do` or `return` |
| JackGrammarProperties.LetUndefinedTarget | projects/11/JackCompiler/compilationEngine.js:262-266 | the compiler's `compileLet` throws when its target is in no table (see also lines 31-36 of the same file) |
| JackGrammarProperties.UndefinedVarName | projects/11/JackCompiler/compilationEngine.js:31-109 | the compiler's `compileVarName(false)` throws for a name in no table |
| JackGrammarProperties.LetAfterTarget | projects/11/JackCompiler/compilationEngine.js:262-272 | in an accepted `let` the token after the target name is `[` or `=` |
| JackGrammarProperties.LetTargetNext | projects/11/JackCompiler/compilationEngine.js:266-272 | the token one past an accepted target name is `[` or `=` |
| JackGrammarProperties.IndicesStart | projects/11/JackCompiler/compilationEngine.js:267-272 | the index loop of `compileLet` starts at `=` or `[` |
| JackGrammarProperties.LetIndicesEnd | projects/11/JackCompiler/compilationEngine.js:267-271 | the index loop ends at `=` |
| JackGrammarProperties.ReturnValuesEnd | projects/11/JackAnalyzer/compilationEngine.js:258-268 | the loop of `compileReturn` ends at `;` |
| JackGrammarProperties.BlockShape | projects/11/JackCompiler/compilationEngine.js:312-314 | an accepted block starts at `{` and ends after `}` |
| JackGrammarProperties.ElseShape | projects/11/JackAnalyzer/compilationEngine.js:270-289 | the `else` part consumes nothing unless the current token is `else`, and then ends after `}` |
| JackGrammarProperties.ParenthesizedShape | projects/11/JackCompiler/compilationEngine.js:396-399 | an accepted parenthesized expression starts at `(` and ends after `)` |
| JackGrammarProperties.OpTermsEnd | projects/11/JackCompiler/compilationEngine.js:357-360 | the operator loop ends at a token that is not one of the nine operators |
| JackGrammarProperties.ExpressionLoopEnd | projects/11/JackCompiler/compilationEngine.js:341-348 | the outer loop of `compileExpressionList` ends at `)` |
| JackGrammarProperties.ExpressionListEnd | projects/11/JackAnalyzer/compilationEngine.js:303-316 | `compileExpressionList` stops at `)`, which it leaves to its caller |
| JackGrammarProperties.TermRejects | projects/11/JackCompiler/compilationEngine.js:365-405 | `compileTerm` throws on a token that starts no term, with `tokenType()`'s message when that throws and `invalid term` otherwise |
| HackMachine.AssembledPointers | projects/06/assembler/symbolTable.js:3-8 | a symbol map holding the platform's predefined symbols maps `SP`, `LCL`, `ARG`, `THIS` and `THAT` to RAM words 0 to 4, the addresses the VM code relies on |
| HackMachine.JumpStep | projects/07/VMTranslater/codeWriter.js:116-119 | a jump goes to the address in A when its condition holds of the computed value and to the next line otherwise |
| VmCodeSemantics.PushFromDRuns | projects/07/VMTranslater/codeWriter.js:43-51 | `writePushFromD` stores D in the word SP points at, moves SP up by one and changes no other RAM word |
| VmCodeSemantics.PopToARuns | projects/07/VMTranslater/codeWriter.js:54-60 | `writePopToA` moves SP down by one and leaves A pointing at the word that was on top, no other RAM word changed |
| VmCodeSemantics.UnaryFormulaComputes | projects/07/VMTranslater/codeWriter.js:62-70 | `D=-M` computes the 16-bit negation of M and `D=!M` its bitwise complement |
| VmCodeSemantics.BinaryFormulaComputes | projects/07/VMTranslater/codeWriter.js:77-89 | `D=D+M`, `D=M-D`, `D=D&M` and `D=D|M` compute the sum, the difference, the and and the or of the lower word M and the upper word D, in the VM's operand order |
| VmCodeSemantics.UnaryDecodes | projects/07/VMTranslater/codeWriter.js:62-75 | the lines of `neg` and `not` read as Hack instructions: the pop to A, the formula and the push from D |
| VmCodeSemantics.UnaryRuns | projects/07/VMTranslater/codeWriter.js:62-75 | with SP above 1, `neg` and `not` replace the top word of the stack by its negation or complement; SP and every other RAM word are unchanged |
| VmCodeSemantics.BinaryDecodes | projects/07/VMTranslater/codeWriter.js:77-96 | the lines of `add`, `sub`, `and` and `or` read as Hack instructions: two pops, the formula and the push |
| VmCodeSemantics.BinaryRuns | projects/07/VMTranslater/codeWriter.js:77-96 | with SP above 2, `add`, `sub`, `and` and `or` replace the two top words by their sum, difference (lower minus upper), and or or; SP moves down by one and no other RAM word changes |
| VmCodeSemantics.CompareDecodes | projects/07/VMTranslater/codeWriter.js:98-124 | the 21 lines of `eq`, `gt` and `lt` read as Hack instructions, the two labels of the current label number included |
| VmCodeSemantics.CompareRuns | projects/07/VMTranslater/codeWriter.js:110-124 | with the two labels at their lines and SP above 2, the code takes 18 steps when its jump is taken and 19 otherwise, and ends on the line after it with -1 or 0 in place of the two top words and SP one lower; no other RAM word changes |
| VmCodeSemantics.CompareAgrees | projects/07/VMTranslater/codeWriter.js:98-116 | the jump on the wrapped difference answers `eq` for every two words, and `gt` and `lt` as two's-complement comparisons whenever the difference does not overflow 16 bits |
| VmCodeSemantics.GreaterOverflows | projects/07/VMTranslater/codeWriter.js:102-116 | `gt` of 32767 and -32768 is true but the difference wraps to -1, so the `JGT` jump is not taken |
| VmCodeSemantics.CompareComputes | projects/07/VMTranslater/codeWriter.js:98-127 | `eq`, `gt` and `lt` leave the VM's truth value (-1 or 0) of comparing the lower top word with the upper one in their place, SP one lower, whenever a `gt` or `lt` does not overflow |
| VmSegmentSemantics.PushConstantDecodes | projects/08/VMTranslater/codeWriter.js:41-46 | the lines of `push constant` read as the load of the index, `D=A` and the push from D |
| VmSegmentSemantics.PushConstantRuns | projects/08/VMTranslater/codeWriter.js:41-46 | `push constant` with a decimal index pushes the index's 16 low bits and moves SP up by one; no other RAM word changes |
| VmSegmentSemantics.PointerResolves | projects/08/VMTranslater/codeWriter.js:171-179 | the labels of `local`, `argument`, `this` and `that` resolve to their pointer words 1 to 4 |
| VmSegmentSemantics.FixedResolves | projects/08/VMTranslater/codeWriter.js:180-183 | the labels of `pointer` and `temp` load the numbers 3 and 5 |
| VmSegmentSemantics.IncrementsRun | projects/08/VMTranslater/codeWriter.js:196-199 | `index` lines of `A=A+1` move A up by the index, round the 16-bit word, and change nothing else |
| VmSegmentSemantics.PushReferencedDecodes | projects/08/VMTranslater/codeWriter.js:189-203 | the lines of `push` from `local`, `argument`, `this` or `that` read as the load of the pointer, `A=M`, one increment per unit of the index and the push of M |
| VmSegmentSemantics.PushReferencedRuns | projects/08/VMTranslater/codeWriter.js:189-203 | the word `index` past where the segment's pointer points is pushed and SP moves up by one; no other RAM word changes |
| VmSegmentSemantics.PopReferencedDecodes | projects/08/VMTranslater/codeWriter.js:205-221 | the lines of `pop` to `local`, `argument`, `this` or `that` read as the pop to A, `D=M`, the address computation and `M=D` |
| VmSegmentSemantics.PopReferencedRuns | projects/08/VMTranslater/codeWriter.js:205-221 | with SP above 1, the top word is stored in the word `index` past where the segment's pointer points and SP moves down by one; no other RAM word changes |
| VmSegmentSemantics.PushFixedDecodes | projects/08/VMTranslater/codeWriter.js:223-234 | the lines of `push` from `pointer` or `temp` read as the load of 3 or 5, the increments and the push of M |
| VmSegmentSemantics.PushFixedRuns | projects/08/VMTranslater/codeWriter.js:223-234 | the word at 3 or 5 plus `index` is pushed and SP moves up by one; no other RAM word changes |
| VmSegmentSemantics.PopFixedDecodes | projects/08/VMTranslater/codeWriter.js:236-251 | the lines of `pop` to `pointer` or `temp` read as the pop to A, `D=M`, the load of 3 or 5, the increments and `M=D` |
| VmSegmentSemantics.PopFixedRuns | projects/08/VMTranslater/codeWriter.js:236-251 | with SP above 1, the top word is stored at 3 or 5 plus `index` and SP moves down by one; no other RAM word changes |
| VmSegmentSemantics.PushStaticDecodes | projects/08/VMTranslater/codeWriter.js:51-56 | the lines of `push static` read as the load of the file's symbol `file.index`, `D=M` and the push from D |
| VmSegmentSemantics.PushStaticRuns | projects/08/VMTranslater/codeWriter.js:51-56 | the word the static symbol was assembled to is pushed and SP moves up by one; no other RAM word changes |
| VmSegmentSemantics.PopStaticDecodes | projects/08/VMTranslater/codeWriter.js:65-71 | the lines of `pop static` read as the pop to A, `D=M`, the load of the static symbol and `M=D` |
| VmSegmentSemantics.PopStaticRuns | projects/08/VMTranslater/codeWriter.js:65-71 | with SP above 1, the top word is stored in the static symbol's word and SP moves down by one; no other RAM word changes |

## Left out

- File and console I/O: the files are read with `fs.readFileSync`, written with `fs.writeFileSync`/`appendFileSync`, and directories walked with `path`. The model takes a file's text as a string and gives the output as a sequence of lines.
- The command-line drivers are not part of this model: projects/07/VMTranslater/index.js, projects/08/VMTranslater/index.js, projects/10/JackAnalyzer/index.js and projects/11/JackCompiler/index.js only loop over files and call the modelled classes.
- projects/06/assembler/index.js is modelled without its file reading and writing, as a function from source lines to binary lines.
- projects/08/VMTranslater/index.js calls `writeLabel`, `writeGoto` and `writeIf`, and the JavaScript code would throw there because codeWriter.js does not define them. The driver is left out, so the model has no such call.
- Jack to VM code generation: the compiler engine constructs a `VMWriter` but calls none of its methods, so the engine model writes only the XML listing. The VM writer is modelled on its own.
- The constant files are written inline as Dafny constants. That covers the command types of projects/06/assembler/constants.js, which is not part of this model, and the token types, keywords and kinds of the projects/10 and projects/11 `constants.js` files.
- Each `compile…` method whose JavaScript code contains a `while` loop is split into the method and one helper method per loop. Each helper is proved against the `JackGrammar` function of that loop.
- `tokenType()` is computed once per token (`Lex`) and not at each call. It depends on the token's text alone, so the answers are the same.
- HackAssembler.IsName: `isNaN` is modelled as "not a plain decimal digit string", and `parseInt` on such strings only. A source program may hold other texts, where the JavaScript code differs from the model: `@Infinity` passes `isNaN` as a number and is written as `0000000000000NaN`; `@1e3` is written as 1 and `@0x10` as 16 (`parseInt` stops at the first non-digit, or reads the `0x` prefix); `@-1` is written as `00000000000000-1`. The model treats all of these as symbols and gives them RAM addresses.
- Text.JsNumber: `Number(index)` is modelled on plain decimal digit strings only, and any other text counts as NaN. In the VM translator of projects/08 the index `1e1` gives ten `A=A+1` lines, and `-1` or `1.5` make `new Array(indexNum)` throw a RangeError (projects/08/VMTranslater/codeWriter.js:196-198). The model writes no `A=A+1` line for these.
- HackSymbols.SymbolTable.Contains, HackSymbols.SymbolTable.GetAddress, HackCode.Lookup (through HackCode.Comp and HackCode.Jump), and JackSymbolTable.SymbolTable.KindOf, TypeOf and IndexOf: the JavaScript tables are object literals, so a lookup also finds the keys inherited from `Object.prototype` (`toString`, `valueOf`, `constructor`, `hasOwnProperty`, `__proto__`). The model's tables hold only the keys stored. With such a name the source differs: `@toString` is written as the address of R15 (the inherited function's text starts with `function`, whose `f` `parseInt(…, 16)` reads as 15); the label `(valueOf)` is never stored; `D=toString` writes `111` followed by the text of a JavaScript function; and a Jack variable `toString` in no table makes `kindOf`, `typeOf` and `indexOf` answer `undefined` without throwing.
- JackEngine.Outcome: on a throw, the JavaScript engines have already appended the lines written so far to the output file (`appendFileSync`, projects/11/JackCompiler/compilationEngine.js:28-51). The model's `Err` outcome carries the error message only, not those partial lines.
- Integers are unbounded. The Hack assembler writes an A-instruction's value as its 16 low bits (`Text.BinaryWord`), which is what `toString(2)` followed by `slice(-16)` does for values below 2^53. Larger values are not modelled.
- JackTokenizer11.Tokenizer.constructor and JackTokenizer10.Tokenizer.constructor require the text to be one on which the JavaScript loops end: in each pass of the comment loop, the first `*/` must not end at or before the first `/*`, and a text holding `/*` but no `*/` must start with that `/*` (so `x/*y`, or any file whose last comment is never closed, is refused); also, no string constant may be left open on a line. On any other text the JavaScript loops never end. With no `*/`, `indexOf` gives -1, so the pass `slice(0, index) + slice(-1 + 2)` keeps the text as it was or makes it longer. A `*/` that ends at or before the `/*` likewise leaves a text no shorter.
- JackEngine.CompilationEngine.WriteElementEnd requires a positive indentation count, since the count is a `nat`. Every element end follows its start, so the engines never call it at depth zero.
- HackMachine.Run executes assembly text, not the assembler's binary output. The step from one to the other (label lines removed, symbols resolved by the assembler's two passes) is not proved. The machine knows only the instructions the VM translators emit: the other destinations, computations and jumps of the Hack instruction set are not modelled.
- VmCodeSemantics.CompareRuns and VmCodeSemantics.CompareComputes take the two labels of the comparison at the lines that define them, as the line-counting machine places them. They do not derive those addresses from a whole translated file.
- VmCodeSemantics.CompareAgrees: `gt` and `lt` agree with the two's-complement comparison only when the difference of the two words does not overflow 16 bits. The code jumps on the sign of the wrapped difference, and `GreaterOverflows` gives a pair where the two disagree.
- VmSegmentSemantics.PushConstantRuns requires a decimal index. Any other index text is loaded as a symbol, which `Resolve` leaves to the symbol map.
- VmSegmentSemantics.PopReferencedRuns, PopFixedRuns and PopStaticRuns, and the binary and comparison lemmas, require SP above the number of words they pop. Popping from an empty stack is not modelled. The push lemmas require SP to be nonzero, since a push at SP 0 would overwrite SP itself.
- The run of a whole translated file is not stated. The lemmas give each command's code from one machine state; chaining the commands of a file, with its labels placed by the assembler, is left to `HackMachine.RunThen`.
- The analyzer engine of projects/11/JackAnalyzer/compilationEngine.js and the compiler engine of projects/11/JackCompiler/compilationEngine.js are modelled by one class switched by `Engine`. The two files differ only in the symbol-table calls and in how names are written.
- The shape of `compileIf`'s output is stated through `JackGrammarProperties.ElseShape` and the generic guarantees of every grammar function (progress, indentation kept). No single lemma gives its full XML listing.

## Findings

| source | as written | input that shows it | evidently intended | confidence | as-written member | corrected member |
|---|---|---|---|---|---|---|
| projects/11/JackAnalyzer/jackTokenizer.js:48-67 | a line that does not start with a quote and holds no space takes the last branch and is cut at every symbol as a whole, string constants included | the line `do Output.printString("a.b");` gives `"a`, `.`, `b"` in place of the string constant `"a.b"` | a quote before the end of a space-free line cuts the line there, as a quote before the first space does, so the string constant is one token | not executed | JackTokenizer11.SpaceFreeLineSplitsStrings | JackTokenizer11.IntendedKeepsStringConstant |
| projects/10/JackAnalyzer/jackTokenizer.js:34-42 | a line that does not start with a quote is cut at its first space, even when that space lies inside a string constant | the line `do Output.printString("a b");` gives `"a` and `b"` in place of the string constant `"a b"` | the text is cut before a quote that comes before the first space, which is what the projects/11 tokenizer does | not executed | JackTokenizer10.SpacedStringSplit | JackTokenizer11.SpacedStringKept |

The corrected line pass of the first finding is `JackTokenizer11.LinePassIntended`, with `JackTokenizer11.LineTokensIntended` for the whole line. The `Tokenizer` class keeps the code as written, so that the class stays faithful to its source file. The grammar functions and the engines are stated for an arbitrary token list, so their guarantees hold for the corrected tokens as well. The projects/11 compilation engines read the projects/11 tokenizer, so the second finding does not reach them.
