# wazum compiler: a Dafny model

wazum builds WebAssembly modules as trees of TypeScript objects. Its compiler,
`src/compiler.ts`, serialises such a tree into the parenthesised text format of
the WebAssembly Core Specification (chapter 6; instructions in section 6.5,
modules in section 6.6). This project models that compiler as pure Dafny
functions and proves what its output looks like. The compiler has three layers:

- **The printer.** `compileSExpression` and `space` are modelled as `SExpr.Render` and `Text.Space`. The printer takes:
  - a head;
  - inline tokens;
  - block lines that may be null;
  - an indentation depth.

  It prints `(head tokens`, each block line on its own line, and a closing `)`.
- **The encoders and the dispatcher `instr`.** These are `Encoder.Encode*` and `Encoder.CompileInstr`.
  - The instruction tree is the closed datatype `Nodes.Instr`. Its variant `Unknown(tag)` stands only for a node whose `__nodeType` is outside the 33 tags the dispatcher routes. A node with a known tag is always one of the other variants, so `Unknown` is never given one of those tags.
  - Compiling returns `Result<string, CompileError>`. The `throw` for an unknown tag becomes `Failure(UnexpectedNode(tag))`.
  - Sub-instructions are compiled one level deeper, in the order the encoders list them.
- **The module emitter `compile`.** This is `Emitter.Compile`.
  - The module's block arguments are computed first, as a sequence of entries: `Emitter.Outline`.
  - Each entry is then printed with `Emitter.RenderEntry`.
  - So ordering facts are stated on the outline, and text facts on each entry.

Most properties are stated through `InstrLayout.Layout(k, head, tokens, directives, children)`, the exact list of lines a node prints:
- the head line, closed on the spot when there is nothing below it;
- otherwise the head line, each directive line at depth `k + 1`, every line of each child, and `)` after exactly `k` spaces.

`Text.Lines` splits a text at its newlines.

## Data escaping

The emitter is parameterised by an `Escaping`. `Emitter.Compile` uses `AsWritten`, the compiler's own escape:
- a backslash followed by the byte's lowercase hexadecimal digits;
- no zero padding.

`Emitter.CompileCorrected` uses `TwoDigit`, which always writes two digits. `Escaping.DecodeString` reads string literals as section 6.3.3 of the WebAssembly Core Specification defines them:
- `\hh` with exactly two hexadecimal digits;
- `\t`, `\n`, `\r`, `\"`, `\'` and `\\`;
- printable ASCII characters.

It reports invalid contents as `None`.

## Where the code and its description differ

The model follows the code in each case:
- A function is exported only when its export name is truthy. An empty export name therefore exports nothing (`src/compiler.ts:440`). A description that speaks only of an export name being present would include it.
- A block prints its label line only for a truthy name (`src/compiler.ts:199`). A loop prints its label inline, not on a line of its own, whenever the name is not null. An empty loop name therefore prints a bare `$` (`src/compiler.ts:280`).
- The `(param ...)` lines of `call_indirect` print only the parameter's type. The `(param ...)` lines of a function print the name and the type (`src/compiler.ts:183`, `src/compiler.ts:457`).

## Definitions

The functions that define the compiler carry no contract of their own; the lemmas in the table below state what they compute.

- `SExpr.Render`: `compileSExpression` (`src/compiler.ts:50-73`).
- `Encoder.Encode*`: the per-instruction encoders (`src/compiler.ts:77-321`).
- `Encoder.CompileInstr`, `Encoder.CompileAll`: the dispatcher `instr` and its use in `map` (`src/compiler.ts:323-361`).
- `Emitter.Outline`: the block arguments of `compile`, one entry each (`src/compiler.ts:366-480`).
- `Emitter.RenderEntry`: the printing of one entry (`src/compiler.ts:368-479`).
- `Emitter.Emit`, `Emitter.Compile`: `compile` itself, with the compiler's data escape (`src/compiler.ts:363-484`).
- `Emitter.CompileCorrected`: `compile` with the two-digit data escape.
- `Escaping.EscapedBytes`: the data literal of a segment (`src/compiler.ts:389-392`).
- `Escaping.DecodeString`: the reading of a string literal by section 6.3.3 of the WebAssembly Core Specification.

## Model

| member | source | states |
|---|---|---|
| Text.Space | src/compiler.ts:75 | `space(n)` is exactly `n` space characters |
| SExpr.PresentMembers | src/compiler.ts:59-60 | filtering out nulls keeps a token exactly when it was a non-null argument, and never lengthens the list |
| SExpr.RenderLines | src/compiler.ts:50-73 | the printed lines are `indent` spaces + `(head` + the non-null inline tokens joined by single spaces, closed with `)` on the same line when no non-null block argument remains; otherwise that line, then every line of each non-null block argument in order, then `)` after exactly `indent` spaces |
| SExpr.RenderFrame | src/compiler.ts:58-72 | the text starts with `indent` spaces, `(` and the head, and its last character is `)` |
| SExpr.RenderIndented | src/compiler.ts:58-72 | when every block argument is indented by at least `indent + 1`, every line of the result starts with `indent` spaces |
| SExpr.RenderBalanced | src/compiler.ts:58-72 | with a parenthesis-free head and balanced arguments, the result has balanced parentheses |
| Text.LinesJoin | src/compiler.ts:67 | splitting the block arguments joined by newlines at its newlines gives every line of every argument, in order |
| Text.Decimal | src/compiler.ts:372 | the decimal text of a size, offset, alignment or depth reads back as the same number |
| Text.Hex | src/compiler.ts:391 | the lowercase hexadecimal text of a byte reads back as the same byte |
| InstrLayout.VariableGetText | src/compiler.ts:77-82 | `local.get` and `global.get` print the single line `(local.get $name)` or `(global.get $name)`, indented by the depth |
| InstrLayout.VariableWriteLayout | src/compiler.ts:84-133 | `local.set`/`local.tee`/`global.set`/`global.tee` print the head with `$name` inline, then the value's lines one level deeper |
| InstrLayout.BinaryLayout | src/compiler.ts:135-156 | the seven binary operators print `<type>.<op>`, then the left operand's lines, then the right operand's, both one level deeper |
| InstrLayout.ConstText | src/compiler.ts:158-163 | `<type>.const` is one line with the literal copied unchanged |
| InstrLayout.CallLayout | src/compiler.ts:165-174 | `call $f` then every argument's lines in list order one level deeper; with no arguments, the single line `(call $f)` |
| InstrLayout.CallIndirectLayout | src/compiler.ts:176-192 | `call_indirect`, then the lines `$table`, one `(param T)` per parameter, `(result T)` for every result type including `none`, the arguments in order, and the callee address last |
| InstrLayout.BlockLayout | src/compiler.ts:194-208 | `block`, a `$name` line exactly when the name is non-null and non-empty, a `(result T)` line exactly when T is not `none`, then the body in order |
| InstrLayout.DropLayout | src/compiler.ts:210-215 | `drop`, then its operand one level deeper |
| InstrLayout.StoreLayout | src/compiler.ts:217-237 | the four stores print `<type>.store[8/16/32]`, the store directives, then the base address, then the value |
| InstrLayout.StoreDirectivesPresent | src/compiler.ts:224-225 | a store prints `offset=n` exactly when the offset is n and n is non-zero, and `align=n` exactly when the alignment is n and n is non-zero; nothing else |
| InstrLayout.LoadLayout | src/compiler.ts:239-274 | the seven loads print `<type>.load...`, the load directives, then the base address |
| InstrLayout.LoadDirectivesPresent | src/compiler.ts:257-260 | a load prints `offset=n` exactly when the offset is n and n is non-zero, but `align=n` whenever the alignment is n, zero included |
| InstrLayout.LoopLayout | src/compiler.ts:276-285 | `loop` with `$name` inline exactly when the name is not null (even when empty), then the body in order |
| InstrLayout.BranchIfLayout | src/compiler.ts:287-300 | `br_if` with the target inline, then the condition one level deeper |
| InstrLayout.BranchText | src/compiler.ts:302-314 | `br` is one line; a label target prints as `$label`, and a depth prints as decimal text that reads back as that depth |
| InstrLayout.EqzLayout | src/compiler.ts:316-321 | `<type>.eqz`, then its operand one level deeper |
| InstrTree.CompileHead | src/compiler.ts:323-357 | whatever compiles is a known kind, and its text starts with the indentation, `(` and that kind's head (`<type>.<op>` or its keyword), and ends with `)` |
| InstrTree.CompileAllElements | src/compiler.ts:170 | mapping `instr` over a list succeeds exactly when every element compiles, gives each element's text at its position, and otherwise fails with some element's error |
| InstrTree.DispatchChildren | src/compiler.ts:323-357 | a known node fails exactly when compiling its sub-instructions in encoder order fails, and with the same error |
| InstrTree.CompileFailure | src/compiler.ts:323-361 | compiling fails exactly when the tree holds a node of unknown tag, and the error names the first such node in encoder order |
| InstrTree.FailureMessage | src/compiler.ts:358-360 | a failed compilation throws `Unexpected <tag> node`, with the tag of the first unknown node |
| InstrShape.CompileShape | src/compiler.ts:58-72 | an instruction tree whose names hold no newline and no parenthesis compiles, when it compiles at depth k, to text whose every line starts with k spaces and whose parentheses are balanced |
| InstrShape.CompileAllShape | src/compiler.ts:170 | a list of such trees compiles to one text per tree, each indented and balanced |
| InstrShape.NodeShape | src/compiler.ts:323-357 | a known node with such names, whose sub-instructions compile to indented, balanced text one level deeper, compiles to indented, balanced text |
| InstrTree.CompileAllFailure | src/compiler.ts:170 | a list fails exactly when one of its trees holds an unknown node, naming the first one |
| Escaping.AsWrittenDigits | src/compiler.ts:391 | the compiler writes a byte below 16 as a backslash and one digit, and a byte from 16 upwards as a backslash and two digits |
| Escaping.AsWrittenRoundTrip | src/compiler.ts:389-392 | the compiler's data literal reads back as its bytes exactly when every byte is at least 16; otherwise it is not a valid string |
| Escaping.ByteTenEscape | src/compiler.ts:391 | byte 10 is written `\a`, which is not a valid string; the two-digit escape `\0a` reads back as byte 10 |
| Escaping.TwoDigitRoundTrip | src/compiler.ts:389-392 | the two-digit escape reads back as exactly the bytes written |
| Escaping.EscapesAgree | src/compiler.ts:389-392 | when every byte is at least 16, the two escapes produce the same text |
| Emitter.OutlineOrdered | src/compiler.ts:366-480 | the block arguments come in section order: memories with their exports and data, then tables with their elems, then globals, then function exports, then functions, then the start line |
| Emitter.MemoryExportFollows | src/compiler.ts:368-398 | every memory declaration is followed at once by its unconditional export and then by one data entry per segment, in order |
| Emitter.TableElemsFollow | src/compiler.ts:399-424 | every table declaration is followed at once by one elem entry per segment, in order |
| Emitter.MemoriesInOrder | src/compiler.ts:368-398 | the memory declarations of the outline are exactly the module's memories, one each, in declaration order |
| Emitter.MemoryExportsInOrder | src/compiler.ts:368-398 | the memory exports of the outline are exactly one per memory, in declaration order; there is no other memory export |
| Emitter.DataInOrder | src/compiler.ts:368-398 | the data entries of the outline are exactly the data segments of the memories, memory by memory and in segment order; there is no other data entry |
| Emitter.ElemsInOrder | src/compiler.ts:399-425 | the elem entries of the outline are exactly the elem segments of the tables, table by table and in segment order; there is no other elem entry |
| Emitter.TablesInOrder | src/compiler.ts:399-425 | the table declarations of the outline are exactly the module's tables, one each, in declaration order |
| Emitter.GlobalsInOrder | src/compiler.ts:426-438 | the globals of the outline are exactly the module's globals, one each, in declaration order |
| Emitter.Exported | src/compiler.ts:439-440 | the filter keeps only functions of the list whose export name is neither null nor empty, and never lengthens the list |
| Emitter.ExportedComplete | src/compiler.ts:439-440 | the filter drops no function whose export name is neither null nor empty |
| Emitter.ExportsInOrder | src/compiler.ts:439-449 | the function exports of the outline are, in order, one per function whose export name is truthy, under that name and naming that function |
| Emitter.FuncExportsExactly | src/compiler.ts:439-449 | a function is exported under name e exactly when its export name is e and e is non-empty; there are never more exports than functions |
| Emitter.ExportsBeforeFuncs | src/compiler.ts:439-470 | every function export comes before every function |
| Emitter.FuncsInOrder | src/compiler.ts:450-470 | the functions appear as one contiguous run in declaration order, just before the start line |
| Emitter.StartLast | src/compiler.ts:471-479 | there is a start line exactly when the start is not null; it is `start $s` and it is the last block argument; no other position holds one |
| Emitter.MemoryDeclText | src/compiler.ts:369-375 | a memory prints ` (memory $name init max)` |
| Emitter.MemoryExportText | src/compiler.ts:376-382 | a memory's export prints ` (export "name" (memory $name))` |
| Emitter.DataLayout | src/compiler.ts:383-397 | a data segment prints `data`, then its offset expression at depth 2, then the escaped literal after two spaces; it fails exactly when the offset fails |
| Emitter.TableDeclText | src/compiler.ts:399-411 | a table prints ` (table $name init max type)` |
| Emitter.ElemLayout | src/compiler.ts:412-424 | an elem segment prints `elem`, then its offset at depth 2, then the `$`-prefixed element names joined by single spaces after two spaces |
| Emitter.GlobalLayout | src/compiler.ts:426-438 | a global prints `global $name (type)` with its initial value at depth 2 |
| Emitter.GlobalTypeMutable | src/compiler.ts:432 | a global's type token starts with `(mut ` exactly when the global is mutable |
| Emitter.FuncExportText | src/compiler.ts:441-448 | a function export prints ` (export "e" (func $name))` |
| Emitter.FuncLayout | src/compiler.ts:450-470 | a function prints `func $name`, its directive lines, then the body at depth 2; it fails exactly when the body fails |
| Emitter.FuncDirectivesShape | src/compiler.ts:455-464 | a function's directives are one `(param $n T)` per parameter, then `(result T)` exactly when T is not `none`, then one `(local $n T)` per local, in order |
| Emitter.StartText | src/compiler.ts:471-479 | the start line is ` (start $s)` |
| Emitter.EmitLines | src/compiler.ts:363-484 | the module is `(module`, the lines of each block argument in outline order, and `)`; block argument j is what the entry at outline position j prints |
| Emitter.EntryFailure | src/compiler.ts:388 | an entry fails exactly when the expression it embeds holds an unknown node, naming the first |
| Emitter.EmitFailure | src/compiler.ts:363-484 | compiling a module fails exactly when an embedded expression holds an unknown node; the error names the first one in output order |
| Emitter.CorrectionConservative | src/compiler.ts:389-392 | when every data byte is at least 16, the corrected escape leaves the module text unchanged |
| Scenarios.AlignZero | src/compiler.ts:225 | an explicit alignment of 0 is dropped by a store but printed as `align=0` by a load |
| Scenarios.OffsetZero | src/compiler.ts:224 | an offset of 0 is dropped by both stores and loads |
| Scenarios.MemoryOnlyText | src/compiler.ts:363-398 | a module holding one memory `mem` with sizes 1 and 2 prints exactly `(module`, ` (memory $mem 1 2)`, ` (export "mem" (memory $mem))`, `)` |
| Scenarios.UnknownBodyFails | src/compiler.ts:358-360 | a module whose function body is a node tagged `select` fails with that tag, even though a memory and an export come before it |

## Left out

- The `match` of the `ts-pattern` library is an external library. The dispatch is a Dafny `match` over `Nodes.Instr`, one variant per known tag.
- Constant literals: JavaScript's number-to-text conversion of constants, including floats, is not modelled. A constant carries its literal as a string, copied unchanged.
- Sizes, offsets, alignments and depths are natural numbers printed in decimal by `Text.Decimal`. JavaScript's formatting of negative or fractional numbers is not modelled.
- The `compilers` export table only re-exports the encoders.
- The commented-out `trimdent` helper is not modelled.
- `./nodes` and `./module`, which define the input types and build the trees, are not part of this model. Names are not checked to resolve, and types are not checked.
- A load or store alignment that is `undefined`, rather than `null` or a number, is not represented. The optional values are `Option<nat>`.
- `Escaping.DecodeString` does not read `\u{...}` escapes or non-ASCII characters. The compiler never writes them.
- The layout lemmas (`InstrLayout.*Layout`, `Emitter.GlobalLayout`, `Emitter.FuncLayout`) require names without a newline. A newline inside a name would split a line, and the lemmas then say nothing about that output.
- Indentation and well-nestedness are proved for every compiled instruction tree (`InstrShape.CompileShape`), not for a whole compiled module. Names holding a newline or a parenthesis fall outside that lemma.

## Findings

| source | as written | input that shows it | evidently intended | confidence | as-written member | corrected member |
|---|---|---|---|---|---|---|
| src/compiler.ts:391 | each data byte is written as a backslash and its lowercase hexadecimal digits, with no zero padding | a data segment holding the single byte 10 is written `"\a"`, which is not a valid string literal under section 6.3.3 of the WebAssembly Core Specification (`\a` is not an escape there) | two hexadecimal digits per byte (`"\0a"`), which reads back as the byte | high; not executed | Escaping.AsWrittenRoundTrip, Escaping.ByteTenEscape | Escaping.TwoDigitRoundTrip, Emitter.CorrectionConservative |
