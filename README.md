# Ur's C-to-Rust text generator, modelled in Dafny

Ur walks the libclang syntax tree of a C translation unit and writes Rust source text.
Its core is the class `ConversionProcessor` in `Ur/ConversionProcessor.cs`. This project
models that class:

- **The node translator.** `Process` / `InternalProcess` produce one rule per cursor kind.
  They cover operators, calls, `return`, `if`, the loops, `switch`/`case`/`default`,
  labels, literals, declarations, blocks and initialiser lists. `AppendGZ` and
  `ReplaceCommas` re-process some children.
- **The translation context.** The fields `_switchCount`, `_switchExpression`,
  `_returnType` and `_state` are shared by every rule.
- **The declaration passes.** `Run` runs them in order:
  - enums, with their auto-numbering;
  - global `const`s;
  - struct registration, then struct emission;
  - function registration with signature rendering, then function emission.
- **The registries.** These are `_structInfos`, `_visitedStructs` and the
  insertion-ordered `_functionInfos`.
- **The output buffers.** `Writer` keeps one buffer per source id. A buffer is created
  on first use and gets the "Generated by Ur" preamble once.

The project has two layers.

- **Specification functions.** `Translate.Tr(n, env, sw)` gives the text of a node and
  the switch state after it. It threads the switch state through every child in the
  order the C# processes children, re-processing included. `Passes` holds the same kind
  of functions for the declaration passes: `PreprocessStructs`, `EmitStructs`,
  `EnumeratorValues`/`EnumText`, `PreprocessFunctions`, `HeaderText` and `BodyText`.
- **An imperative class.** `Processor.ConversionProcessor` has the C# fields and one
  method per C# method or per `InternalProcess` case. Each method is proved against the
  specification function it corresponds to. The properties the generator promises are
  then proved about those functions as lemmas, in `TranslateFacts` and `Passes`.

Modules:

- `Wrappers` defines `Option`.
- `Syntax` holds the cursor tree `Node` and the uninterpreted helpers, gathered in
  `Utility`.
- `Strings` holds the .NET string operations used.
- `Registry` holds the configurations and the ordered function dictionary.
- `Translate`, `TranslateFacts`, `Passes` and `Processor` are described above.

## Model

| member | source | states |
|---|---|---|
| Processor.ConversionProcessor.Process | Ur/ConversionProcessor.cs:1353-1363 | a new result record for the node, whose text is the node's translation; the switch fields become the translation's switch state |
| Processor.ConversionProcessor.InternalProcess | Ur/ConversionProcessor.cs:575-1351 | the per-kind dispatch returns exactly the translation of the node and leaves the switch fields as the translation leaves them |
| Processor.ConversionProcessor.ProcessControl | Ur/ConversionProcessor.cs:783-974 | `return`, `if`, `for`, `case`, `default`, `switch`, `do` and `while` each gives exactly the translation of the node, switch state included |
| Processor.ConversionProcessor.ProcessSwitchKind | Ur/ConversionProcessor.cs:904-942 | `case`, `default` and `switch` each gives exactly the translation of the node, switch state included |
| Processor.ConversionProcessor.ProcessBranchKind | Ur/ConversionProcessor.cs:783-974 | `return`, `if`, `for`, `do` and `while` each gives exactly the translation of the node, switch state included |
| Processor.ConversionProcessor.ProcessJumpKind | Ur/ConversionProcessor.cs:976-1000 | label references, `goto` and labels, and `break`/`continue` (lines 1291-1294), each gives exactly the translation of the node, switch state included |
| Processor.ConversionProcessor.ProcessBlockKind | Ur/ConversionProcessor.cs:1083-1243 | variable declarations, declaration lists and blocks each gives exactly the translation of the node, switch state included |
| Processor.ConversionProcessor.ProcessOperatorKind | Ur/ConversionProcessor.cs:579-1047 | enumerator references, operators, calls, member accesses and subscripts each gives exactly the translation of the node, switch state included |
| Processor.ConversionProcessor.ProcessArithmeticKind | Ur/ConversionProcessor.cs:586-733 | `sizeof`/`alignof`, binary and unary operators, and `?:` (lines 1002-1037) each gives exactly the translation of the node, switch state included |
| Processor.ConversionProcessor.ProcessReferenceKind | Ur/ConversionProcessor.cs:579-782 | enumerator references, identifiers and calls, and member accesses and subscripts (lines 1038-1047, 1244-1250), each gives exactly the translation of the node, switch state included |
| Processor.ConversionProcessor.ProcessOtherKind | Ur/ConversionProcessor.cs:1048-1351 | literals, initializer lists, parentheses, casts, unexposed nodes and every other kind (the last child) each gives exactly the translation of the node, switch state included |
| Processor.ConversionProcessor.ProcessEnumConstant | Ur/ConversionProcessor.cs:579-585 | an enumerator reference is translated as `Translate.TrEnumConstant` says, switch state included |
| Processor.ConversionProcessor.ProcessUnaryExpr | Ur/ConversionProcessor.cs:586-621 | `sizeof`/`alignof` and other unary expressions match `TrUnaryExpr`, switch state included |
| Processor.ConversionProcessor.ProcessBinary | Ur/ConversionProcessor.cs:635-697 | binary and compound-assignment operators: operands processed left to right, the cast branch re-processes, and the result matches `TrBinary` |
| Processor.ConversionProcessor.ProcessUnaryOperator | Ur/ConversionProcessor.cs:698-733 | unary operators match `TrUnaryOperator` |
| Processor.ConversionProcessor.ProcessCall | Ur/ConversionProcessor.cs:735-782 | a call's text and switch state equal `TrCall`: the callee resolved through the registry, then the arguments |
| Processor.ConversionProcessor.ProcessArguments | Ur/ConversionProcessor.cs:757-773 | the argument loop yields the texts of children 1.. in order, each processed in the switch state the previous one left |
| Processor.ConversionProcessor.ProcessReturn | Ur/ConversionProcessor.cs:783-811 | `return` matches `TrReturn`, including the null sentinel for a pointer function returning `0` |
| Processor.ConversionProcessor.ProcessIf | Ur/ConversionProcessor.cs:812-833 | `if`/`else` matches `TrIf`, with the condition passed through AppendGZ |
| Processor.ConversionProcessor.ProcessFor | Ur/ConversionProcessor.cs:834-902 | a `for` matches `TrFor`: clauses, comma replacement in the body, then the `while` splice |
| Processor.ConversionProcessor.ProcessForClauses | Ur/ConversionProcessor.cs:836-879 | the clause records it builds are exactly `ForClauses` for 1, 3 or 4 children |
| Processor.ConversionProcessor.ProcessForThree | Ur/ConversionProcessor.cs:848-872 | with three children, the clause records are exactly `ForClauses`: whichever of the first two is a boolean operator becomes the condition |
| Processor.ConversionProcessor.ReplaceCommas | Ur/ConversionProcessor.cs:557-573 | comma splitting re-processes the operands and matches `Translate.ReplaceCommas`, switch state included |
| Processor.ConversionProcessor.ProcessCase | Ur/ConversionProcessor.cs:904-919 | a `case` arm matches `TrCase`: its children first, then the arm line, and the arm counter grows by one |
| Processor.ConversionProcessor.CaseLine | Ur/ConversionProcessor.cs:909-918 | the arm line is `CaseText` of the switch state before it (`} else ` unless first); the counter grows by one and the captured scrutinee is kept |
| Processor.ConversionProcessor.ProcessDefault | Ur/ConversionProcessor.cs:921-934 | a `default` arm matches `TrDefault` |
| Processor.ConversionProcessor.DefaultLine | Ur/ConversionProcessor.cs:924-933 | the default line is `DefaultText` of the state before it; the counter grows by one |
| Processor.ConversionProcessor.ProcessSwitch | Ur/ConversionProcessor.cs:936-942 | `switch` matches `TrSwitch`: the counter restarts at 0, the scrutinee text is captured, and a `}` is appended |
| Processor.ConversionProcessor.ProcessDo | Ur/ConversionProcessor.cs:944-965 | `do ... while` matches `TrDo` |
| Processor.ConversionProcessor.ProcessWhile | Ur/ConversionProcessor.cs:967-974 | `while` matches `TrWhile` |
| Processor.ConversionProcessor.ProcessGoto | Ur/ConversionProcessor.cs:978-983 | `goto` matches `TrGoto` |
| Processor.ConversionProcessor.ProcessLabel | Ur/ConversionProcessor.cs:985-1000 | the label loop yields `NAME:;` and its children's texts in order, as `TrList` says |
| Processor.ConversionProcessor.ProcessConditional | Ur/ConversionProcessor.cs:1002-1037 | `c ? a : b` matches `TrConditional` |
| Processor.ConversionProcessor.ProcessMember | Ur/ConversionProcessor.cs:1038-1047 | member access matches `TrMember` |
| Processor.ConversionProcessor.ProcessVarDecl | Ur/ConversionProcessor.cs:1083-1210 | local and global declarations match `TrVarDecl` |
| Processor.ConversionProcessor.ProcessStatements | Ur/ConversionProcessor.cs:1211-1223 | the declaration-list loop yields each child's text finished as a statement, in order |
| Processor.ConversionProcessor.ProcessCompound | Ur/ConversionProcessor.cs:1224-1243 | the block loop yields `{`, the finished statements in order, and `}` |
| Processor.ConversionProcessor.ProcessSubscript | Ur/ConversionProcessor.cs:1244-1250 | subscripts match `TrSubscript` |
| Processor.ConversionProcessor.ProcessInitList | Ur/ConversionProcessor.cs:1252-1272 | the init-list loop yields `[ a, b, ... ]` with the children's texts in order |
| Processor.ConversionProcessor.ProcessUnexposed | Ur/ConversionProcessor.cs:1311-1334 | unexposed nodes match `TrUnexposed`, with the null sentinel for a pointer-typed `0` |
| Processor.ConversionProcessor.AppendGZ | Ur/ConversionProcessor.cs:464-534 | rewrites the result record's text in place to `Translate.AppendGZ` of its old text, switch state included |
| Processor.ConversionProcessor.AppendGZParen | Ur/ConversionProcessor.cs:477-487 | the parenthesised case of AppendGZ, with the same in-place contract |
| Processor.ConversionProcessor.AppendGZUnary | Ur/ConversionProcessor.cs:489-523 | the unary case of AppendGZ, with the same in-place contract |
| Processor.ConversionProcessor.CompareWithZero | Ur/ConversionProcessor.cs:525-533 | the record's text becomes `Compare(type, old text)`: numbers compared with `0`, pointers with the null sentinel |
| Processor.ConversionProcessor.CurrentWriter | Ur/ConversionProcessor.cs:49-76 | no source means no buffer; otherwise the current source's buffer, created with the preamble only if it did not exist |
| Processor.ConversionProcessor.Write | Ur/ConversionProcessor.cs:49-76 | with a source, the text is appended to that buffer (created with its preamble if new); with none, the write fails and nothing changes |
| Processor.ConversionProcessor.IndentedWriteLine | Ur/ConversionProcessor.cs:49-76 | the indentation, the text and a newline are appended to the current buffer, or the write fails without a source |
| Processor.ConversionProcessor.IndentedWrite | Ur/ConversionProcessor.cs:1453 | the indentation and the text are appended to the current buffer, or the write fails without a source |
| Processor.ConversionProcessor.WriteLine | Ur/ConversionProcessor.cs:217 | a line end is appended to the current buffer, or the write fails without a source |
| Processor.ConversionProcessor.ProcessEnum | Ur/ConversionProcessor.cs:258-323 | with no enum source or an empty source nothing changes; otherwise the buffer of the chosen source gains exactly `EnumText` of the enumerator values |
| Processor.ConversionProcessor.EnumInSource | Ur/ConversionProcessor.cs:294-319 | the chosen source becomes current and its buffer gains exactly `EnumText` of the enumerator values |
| Processor.ConversionProcessor.WriteEnumerators | Ur/ConversionProcessor.cs:296-319 | the enumerator loop appends one `const NAME:i32 = value;` line per enumerator, numbered by the counter from 0 |
| Processor.ConversionProcessor.NextEnumerator | Ur/ConversionProcessor.cs:298-318 | one turn of the enumerator loop keeps the loop state: the values translated so far, the counter as `EnumCounter` of them, and the buffer grown by `EnumText` |
| Processor.ConversionProcessor.WriteEnumerator | Ur/ConversionProcessor.cs:298-316 | one enumerator: the value is its initializer's text, else the counter; the new counter is `NextCounter` (reset by a numeric initializer, then +1) |
| Processor.ConversionProcessor.VisitEnums | Ur/ConversionProcessor.cs:258-323 | the enum pass keeps every buffer headed by its preamble, only appends to buffers, and never sets the failure flag |
| Processor.ConversionProcessor.ProcessGlobal | Ur/ConversionProcessor.cs:336-372 | with no global source or an empty one nothing changes; otherwise the chosen buffer gains the translated text, hooked, finished with `;` and made `const` |
| Processor.ConversionProcessor.GlobalLineOf | Ur/ConversionProcessor.cs:355-367 | the line is `GlobalConst` of the hooked translation |
| Processor.ConversionProcessor.WriteGlobal | Ur/ConversionProcessor.cs:355-372 | the current buffer gains exactly the indented `const` line of the hooked, finished translation |
| Processor.ConversionProcessor.VisitGlobalVariables | Ur/ConversionProcessor.cs:325-372 | the global pass keeps every buffer headed by its preamble, only appends to buffers, and never sets the failure flag |
| Processor.ConversionProcessor.VisitStructsPreprocess | Ur/ConversionProcessor.cs:99-151 | the struct registry becomes `PreprocessStructs` over the children: records registered and not entered, other cursors entered |
| Processor.ConversionProcessor.VisitStructsPreprocessCursor | Ur/ConversionProcessor.cs:99-151 | at one cursor: a system-header cursor is skipped, a record is registered under its name, anything else is entered, as `PreprocessStructsAt` |
| Processor.ConversionProcessor.VisitStructs | Ur/ConversionProcessor.cs:163-256 | the emission state (buffers, emitted set, current source and configuration, failure) becomes `EmitStructs` over the children |
| Processor.ConversionProcessor.VisitStructsCursor | Ur/ConversionProcessor.cs:163-256 | at one cursor: a system-header cursor is skipped, a record is emitted, a field written, anything else entered, as `EmitStructsAt` |
| Processor.ConversionProcessor.ProcessStruct | Ur/ConversionProcessor.cs:173-222 | one record: the emitted-once guard, the registry lookup (failing on a missing key) and the output check, as `EmitRecord` |
| Processor.ConversionProcessor.EmitStruct | Ur/ConversionProcessor.cs:203-219 | an emitted record is headed, entered, closed and marked, as `EmitOpened` |
| Processor.ConversionProcessor.OpenStruct | Ur/ConversionProcessor.cs:153-161 | the line `struct NAME {` is appended (opening the buffer if needed) when the configuration names the struct; otherwise the buffers are unchanged |
| Processor.ConversionProcessor.CloseStruct | Ur/ConversionProcessor.cs:212-217 | the indented `}` line when the configuration names the struct, then a line end, are appended; without a source the write fails and nothing changes |
| Processor.ConversionProcessor.ProcessField | Ur/ConversionProcessor.cs:223-253 | a field appends `name: type,` to the current buffer, or fails without a source |
| Processor.ConversionProcessor.VisitFunctionsPreprocess | Ur/ConversionProcessor.cs:378-407 | the function registry becomes `PreprocessFunctions` over the children |
| Processor.ConversionProcessor.VisitFunctionsPreprocessCursor | Ur/ConversionProcessor.cs:378-407 | at one cursor: a system-header cursor is skipped, a definition is registered and then entered, as `PreprocessFunctionsAt` |
| Processor.ConversionProcessor.ProcessFunctionPreprocess | Ur/ConversionProcessor.cs:1377-1428 | the definition's entry is (re)assigned under its spelling with its signature and configuration; the return type is recorded |
| Processor.ConversionProcessor.SignatureOf | Ur/ConversionProcessor.cs:1390-1408 | the signature loop yields `type name` per parameter joined by `, ` |
| Processor.ConversionProcessor.WriteFunctionStart | Ur/ConversionProcessor.cs:1445-1488 | the current buffer gains exactly `HeaderText`; `_items` holds one `name:type` per parameter |
| Processor.ConversionProcessor.WriteHeaderStart | Ur/ConversionProcessor.cs:1453-1456 | the current buffer gains the indented `unsafe fn NAME(` |
| Processor.ConversionProcessor.WriteHeaderEnd | Ur/ConversionProcessor.cs:1475-1482 | the current buffer gains `)`, ` -> T ` unless the return type is void, and the indented `{` line |
| Processor.ConversionProcessor.ArgumentHelper | Ur/ConversionProcessor.cs:1490-1509 | `name:type` is appended to `_items` and written |
| Processor.ConversionProcessor.WriteArguments | Ur/ConversionProcessor.cs:1463-1473 | the parameter loop writes the arguments joined by `, ` and leaves them in `_items` |
| Processor.ConversionProcessor.NextArgument | Ur/ConversionProcessor.cs:1466-1472 | one turn of the parameter loop: `, ` unless first, then `name:type`, which is also added to `_items` |
| Processor.ConversionProcessor.WriteFunctionBody | Ur/ConversionProcessor.cs:1365-1375 | each body statement with non-empty text is written finished on its own line, in order: the buffer gains `BodyText` |
| Processor.ConversionProcessor.ProcessFunction | Ur/ConversionProcessor.cs:1430-1443 | the buffer gains the header, the body one level deeper, `}` at the function's level and a blank line; the indentation is restored |
| Processor.ConversionProcessor.WriteBodyAndClose | Ur/ConversionProcessor.cs:1434-1442 | the body is written one level deeper, then `}` at the function's level and a blank line; the level is restored |
| Processor.ConversionProcessor.CloseFunction | Ur/ConversionProcessor.cs:1440-1442 | the indented `}` line and a blank line are appended |
| Processor.ConversionProcessor.VisitFunctions | Ur/ConversionProcessor.cs:409-446 | when every definition it reaches is registered, the function pass keeps buffers headed, only appends, restores the indent level and never sets the failure flag |
| Processor.ConversionProcessor.VisitFunctionsCursor | Ur/ConversionProcessor.cs:409-446 | the same at one cursor: buffers stay headed and only grow, the indent level is restored, the failure flag is unchanged |
| Processor.ConversionProcessor.EmitDefinition | Ur/ConversionProcessor.cs:419-442 | a function declaration is written exactly when it has a body and its registered configuration names an output source; the failure flag and indent level are unchanged; buffers keep their preamble and only grow |
| Processor.ConversionProcessor.EmitFunction | Ur/ConversionProcessor.cs:438-442 | the current source's buffer gains exactly the header (`HeaderText` of the registered name, the arguments and the return type), the body (`BodyText` one level deeper, from the old switch state), the closing `}` and a blank line; the return type, arguments and switch state are as after `ProcessFunction`; buffers keep their preamble and only grow; the indent level and failure flag are unchanged |
| Processor.ConversionProcessor.Run | Ur/ConversionProcessor.cs:1511-1529 | the passes run in order; the struct registry is `PreprocessStructs`; without an exception the function registry is `PreprocessFunctions` and emission cannot fail; buffers only grow and keep their preamble |
| Processor.ConversionProcessor.RunDeclarations | Ur/ConversionProcessor.cs:1513-1518 | after the enum and global passes the state is `GlobalVariables`; buffers stay headed and only grow; the failure flag is unchanged |
| Processor.ConversionProcessor.RunStructs | Ur/ConversionProcessor.cs:1520-1523 | the state becomes `Structs`, the registry is exactly `PreprocessStructs` of the unit, the buffers, visited set, current source and failure flag are exactly `EmitStructs` over the unit's children with the new registry, and buffers stay headed and only grow |
| Processor.ConversionProcessor.RunFunctions | Ur/ConversionProcessor.cs:1525-1528 | function registration is complete before emission, so emission raises nothing |
| Translate.ForClauses | Ur/ConversionProcessor.cs:836-879 | the body is always the last child |
| Translate.Texts | Ur/ConversionProcessor.cs:757-773 | processing children lo..hi yields one text per child |
| TranslateFacts.IsolatedTr | Ur/ConversionProcessor.cs:575-1351 | a subtree with no `switch`/`case`/`default` leaves the switch state unchanged, and its text does not depend on that state |
| TranslateFacts.IsolatedAppendGZ | Ur/ConversionProcessor.cs:464-534 | AppendGZ over a switch-free operand neither reads nor changes the switch state |
| TranslateFacts.IsolatedReplaceCommas | Ur/ConversionProcessor.cs:557-573 | ReplaceCommas over a switch-free node neither reads nor changes the switch state |
| TranslateFacts.CommasJoined | Ur/ConversionProcessor.cs:557-573 | a switch-free comma tree becomes its operands' texts, left to right, joined by `;`; any other node keeps the text it has |
| TranslateFacts.TextsPrefix | Ur/ConversionProcessor.cs:757-773 | child j is processed in the switch state that the children before it left |
| TranslateFacts.SwitchTranslation | Ur/ConversionProcessor.cs:904-942 | for a flat body: the scrutinee is captured once, the counter restarts at 0, item j sees the count of arms before it, the chain is closed by `}`, and the final count is the number of arms |
| TranslateFacts.SwitchUnfold | Ur/ConversionProcessor.cs:936-942 | a switch is its block started with count 0 and the scrutinee text, followed by `}` |
| TranslateFacts.ArmText | Ur/ConversionProcessor.cs:904-934 | the first `case` opens `if S == v {`, later ones `} else if S == v {`; `default` opens `else { ` or `} else { `; each arm adds one to the counter |
| TranslateFacts.LaterArmContinues | Ur/ConversionProcessor.cs:909-918 | an arm after the first starts with `} else ` |
| TranslateFacts.FlatCount | Ur/ConversionProcessor.cs:904-934 | after the first hi items of a flat body, the counter has grown by the number of arms among them |
| TranslateFacts.PointerAddIsSubscript | Ur/ConversionProcessor.cs:673-694 | a pointer left operand of `+` gives `a[b]` |
| TranslateFacts.PointerZeroIsNull | Ur/ConversionProcessor.cs:673-694 | a pointer assigned or compared with a literal `0` gets `std::ptr::null_mut()`, with `;` for an assignment |
| TranslateFacts.AssignmentEndsStatement | Ur/ConversionProcessor.cs:673-694 | every assignment form that is not pointer indexing ends with `;` |
| TranslateFacts.IncrementDecrement | Ur/ConversionProcessor.cs:698-733 | pre- and post-increment give `x += 1`; pre- and post-decrement give `x -= 1` |
| TranslateFacts.UnaryPlacement | Ur/ConversionProcessor.cs:698-733 | address-of and dereference vanish; other operators go before or after the operand as `IsUnaryOperatorPre` says |
| TranslateFacts.AlignofIsFour | Ur/ConversionProcessor.cs:596-600 | `__alignof` gives `4` |
| TranslateFacts.SizeofExpression | Ur/ConversionProcessor.cs:602-606 | `sizeof` of an expression with text gives `std::mem::size_of(e)` |
| TranslateFacts.SizeofType | Ur/ConversionProcessor.cs:608-611 | `sizeof` of a type gives `std::mem::size_of::<T>()` with the rendered type |
| TranslateFacts.OtherUnaryExprTokens | Ur/ConversionProcessor.cs:615-620 | any other unary expression is its tokens run together |
| TranslateFacts.GZKeepsComparisons | Ur/ConversionProcessor.cs:468-475 | any binary operand other than the bitwise `&` and `\|` is left unchanged, so comparisons and `&&`/`\|\|` are kept as they are |
| TranslateFacts.GZNotPointer | Ur/ConversionProcessor.cs:489-501 | `!p` on a pointer becomes `p== std::ptr::null_mut()` |
| TranslateFacts.GZNotValue | Ur/ConversionProcessor.cs:489-523 | `!e` on a non-pointer, non-parenthesised operand becomes `e== 0` |
| TranslateFacts.GZParen | Ur/ConversionProcessor.cs:477-487 | a parenthesised arithmetic operand becomes `(e)!= 0`; any other parenthesised operand is kept |
| TranslateFacts.GZOtherPointer | Ur/ConversionProcessor.cs:489-501 | a unary operator other than `!` on a pointer leaves the text unchanged |
| TranslateFacts.GZUnaryValue | Ur/ConversionProcessor.cs:489-533 | a unary operator on a switch-free non-pointer operand: a parenthesised operand that is not arithmetic is kept; otherwise `!e` becomes `e== 0` and `-e`, `~e`, `*e` and the rest are compared by the expression's type |
| TranslateFacts.GZByType | Ur/ConversionProcessor.cs:468-533 | an operand that is neither a parenthesised expression, a unary operator nor a binary operator other than the bitwise `&` and `\|` (so `a & m` is compared too) is compared by its type: a number `(e) != 0`, a pointer `(e) != std::ptr::null_mut()`, a value that is both gets both comparisons in turn, anything else is unchanged; the switch state is untouched |
| TranslateFacts.CompareByType | Ur/ConversionProcessor.cs:525-533 | the comparison by type, case by case: number, pointer, both, neither |
| TranslateFacts.CallShape | Ur/ConversionProcessor.cs:735-782 | a switch-free call renders as `name(args joined by ", ")`, the name resolved through the registry, and the switch state is unchanged |
| TranslateFacts.CallArguments | Ur/ConversionProcessor.cs:757-773 | there are child count − 1 arguments, and argument i−1 is the translation of child i |
| TranslateFacts.ReturnShape | Ur/ConversionProcessor.cs:783-811 | a switch-free `return`: `return v` from a function returning neither void nor a pointer; `return std::ptr::null_mut()` for a literal `0` returned as a pointer; bare `return` from a void or pointer function when there is no value; otherwise `return v` |
| TranslateFacts.IfShape | Ur/ConversionProcessor.cs:812-833 | a switch-free `if`: `if ` + the condition made boolean by AppendGZ + ` ` + the branch finished and in braces (empty stays empty) + ` else {…}` when there is an else branch |
| TranslateFacts.WhileShape | Ur/ConversionProcessor.cs:967-974 | a switch-free `while`: `while (` + the condition made boolean by AppendGZ + `) ` + the body finished and in braces |
| TranslateFacts.GotoShape | Ur/ConversionProcessor.cs:976-983 | `goto ` + the label's translation, which for a label reference is its spelling with the switch state untouched |
| TranslateFacts.LabelShape | Ur/ConversionProcessor.cs:985-999 | a switch-free label: its name, `:;` and a newline, then one text per child, in child order, run together |
| TranslateFacts.ConditionalShape | Ur/ConversionProcessor.cs:1002-1037 | a switch-free `c ? a : b` becomes `if c{a} else {b}`, the condition not made boolean |
| TranslateFacts.MemberShape | Ur/ConversionProcessor.cs:1038-1047 | a switch-free member access is `a.` + the escaped member name |
| TranslateFacts.SubscriptShape | Ur/ConversionProcessor.cs:1244-1250 | a switch-free subscript is `a[i]` |
| TranslateFacts.UnexposedShape | Ur/ConversionProcessor.cs:1311-1334 | empty without children; otherwise the last child's text, replaced by `std::ptr::null_mut()` exactly when the node is a pointer and that text is `0` once outer parentheses are dropped |
| TranslateFacts.ForShape | Ur/ConversionProcessor.cs:885-901 | a `for` gives init (commas now `;`) `;\nwhile (cond) `, then the step spliced right after the body's first `{`, or a new block of step then body |
| TranslateFacts.ForThreeClauses | Ur/ConversionProcessor.cs:848-872 | with three children, a clause whose operator is boolean is the condition; otherwise the first is the init and the second the step |
| TranslateFacts.DoShape | Ur/ConversionProcessor.cs:944-965 | `while(true) ` then the body with `if !(cond) {break;}` before its last `}`, or wrapped in a new block |
| TranslateFacts.IntegerDropsUnsigned | Ur/ConversionProcessor.cs:1048-1060 | integer tokens keep no `U`/`u`, and the length drops by exactly their count |
| TranslateFacts.FloatSuffix | Ur/ConversionProcessor.cs:1061-1072 | float tokens grow by two characters per `f` (each `f` becomes `f32`) |
| TranslateFacts.CharacterQuoted | Ur/ConversionProcessor.cs:1073-1080 | an empty or NUL character gives `'\0'`; any other is quoted as it is |
| TranslateFacts.StringPrefix | Ur/ConversionProcessor.cs:1081-1082 | a wide string loses exactly its leading `L`; any other string is kept |
| TranslateFacts.VarDeclInitializer | Ur/ConversionProcessor.cs:1087-1093 | a declaration's initializer is the translation of its last child |
| TranslateFacts.VarDeclValue | Ur/ConversionProcessor.cs:1130-1207 | a number or record gives `name:T`, then ` = value` when the initializer has text, as `let mut` inside a function body |
| TranslateFacts.VarDeclPointer | Ur/ConversionProcessor.cs:1130-1207 | a pointer initialized with `0` gets `std::ptr::null_mut()`; inside a function body it is a `let` without `mut` |
| TranslateFacts.VarDeclArray | Ur/ConversionProcessor.cs:1094-1207 | an array gives `name:[T;N]`, and any initializer becomes `unsafe {std::mem::uninitialized()}`, both inside and outside function bodies |
| Registry.FunctionTable.Put | Ur/ConversionProcessor.cs:1385-1427 | dictionary assignment: the map is updated, an existing key keeps its place, a new key goes last |
| Registry.FunctionTable.PutTwice | Ur/ConversionProcessor.cs:1385-1427 | assigning one key twice equals the second assignment alone, so re-registration is harmless |
| Registry.FunctionTable.FindByConfigName | Ur/ConversionProcessor.cs:746-749 | a found entry is configured under the name searched for; not found means no entry is |
| Registry.ResolveCalleeByKey | Ur/ConversionProcessor.cs:741-755 | a callee resolves to the configured name of its registry key, else stays as it is: the fallback search never renames |
| Strings.IndexOfChar | Ur/ConversionProcessor.cs:890 | the first position of the character, or −1 exactly when it is absent |
| Strings.LastIndexOfChar | Ur/ConversionProcessor.cs:956 | the last position of the character, or −1 exactly when it is absent |
| Strings.ReplaceCharRemovesAll | Ur/ConversionProcessor.cs:885-886 | after `Replace(",", ";")` no comma is left |
| Strings.Trim | Ur/ConversionProcessor.cs:269 | the result is a piece of the string that neither starts nor ends with white space, and everything cut off before and after it is white space |
| Strings.IntToStringRoundTrip | Ur/ConversionProcessor.cs:302 | the counter's decimal text parses back to the counter |
| Passes.AppendKeepsBuffers | Ur/ConversionProcessor.cs:49-76 | a write keeps every buffer starting with its preamble, grows only the buffer written, and drops none |
| Passes.EnumTextSnoc | Ur/ConversionProcessor.cs:296-319 | one more enumerator adds one line, numbered by the counter so far |
| Passes.ImplicitFromZero | Ur/ConversionProcessor.cs:296-319 | an enum without initializers numbers its enumerators 0, 1, 2, ... |
| Passes.ImplicitLines | Ur/ConversionProcessor.cs:296-319 | the k-th line of an enum without initializers is `const N_k:i32 = k;` |
| Passes.ExplicitResets | Ur/ConversionProcessor.cs:303-311 | after a numeric initializer v, the next m implicit enumerators get v+1 ... v+m (section 6.7.2.2 paragraph 3 of ISO C11) |
| Passes.NonNumericKeepsCounting | Ur/ConversionProcessor.cs:303-311 | a non-numeric initializer does not reset the counter, which still moves on by one |
| Passes.ImplicitEnumeratorAccepted | Ur/ConversionProcessor.cs:298-316 | a unit holding `enum E { A }` meets every pass's precondition, although the enumerator alone is not a node the translator takes |
| Passes.WellFormedUnitOk | Ur/ConversionProcessor.cs:1511-1529 | every unit whose nodes the translator takes is accepted by all passes |
| Passes.EnumName | Ur/ConversionProcessor.cs:269-277 | the enum's name is its trimmed spelling, else the name of the declaration that names it |
| Passes.GlobalConst | Ur/ConversionProcessor.cs:362-367 | the global's line starts with `const ` and ends with `;` |
| Passes.StructName | Ur/ConversionProcessor.cs:111-125 | a record's name is its spelling, else its sibling's, else `_`, and never empty |
| Passes.StructRegistryKeys | Ur/ConversionProcessor.cs:99-151 | struct preprocessing registers exactly the records it reaches, and nothing else is added |
| Passes.StructRegistryValues | Ur/ConversionProcessor.cs:127-144 | each reached record is registered with the configuration the struct source gives its name; other entries are kept |
| Passes.EmitStructsStops | Ur/ConversionProcessor.cs:163-256 | after an exception, the rest of the struct pass changes nothing |
| Passes.EmitStructsGrows | Ur/ConversionProcessor.cs:163-256 | struct emission keeps every buffer headed, only grows buffers, and marks as emitted only records it reaches |
| Passes.FieldsEmitted | Ur/ConversionProcessor.cs:223-253 | fields write their `name: type,` lines in order to the current buffer |
| Passes.FlatStructText | Ur/ConversionProcessor.cs:191-219 | a record of fields met for the first time with an output is written as `struct NAME {`, its fields, `}` and a blank line, then marked emitted |
| Passes.RecordEmittedOnce | Ur/ConversionProcessor.cs:191 | emitting a record again after a run that raised nothing changes nothing |
| Passes.NestedRecordFails | Ur/ConversionProcessor.cs:147 | a record nested inside another is never registered, yet emission enters the outer one and looks the inner one up, so the struct pass raises |
| Passes.FindBody | Ur/ConversionProcessor.cs:391-395 | the body is a child block when found; not found means no child is a block |
| Passes.ParamDecls | Ur/ConversionProcessor.cs:1391-1408 | one `type name` per parameter, in order |
| Passes.Arguments | Ur/ConversionProcessor.cs:1490-1509 | one `name:type` per parameter, in order |
| Passes.FunctionRegistryComplete | Ur/ConversionProcessor.cs:378-407 | after function preprocessing, the registry holds exactly the earlier keys plus every definition the emission pass will reach |
| Passes.DefinitionsReachedMono | Ur/ConversionProcessor.cs:409-446 | the definitions reached from a prefix of the children are reached from the whole |

## Left out

- **libclang and sealang.** Cursor kinds, types, tokens, operator codes, literal strings
  and the visiting order become fields of the given `Syntax.Node` tree. `Ur/ClangParser.cs`
  (parsing, include paths, diagnostics) is not part of this model.
- **Type rendering.** `ToCSharpTypeString` and `Utility.TypeNameReplacer`
  (Ur/ConversionProcessor.cs:87-96) are not modelled. A node carries its rendered types,
  so the renaming of registered structs in type names is not captured.
- **Helpers from other files.** `Parentize`, `Deparentize`, `EnsureStatementFinished`,
  `Curlize`, `FixSpecialWords`, `TryParseNumber` and the opcode classifiers are arbitrary
  functions, fields of `Syntax.Utility`. Nothing proved depends on how they are written.
  `GetExpression` is concrete: a missing result reads as `""`.
- **Anonymous tags.** `ForwardDeclarationVisitor` is replaced by the node field
  `siblingName`, the name the sibling scan would find.
- **Indentation.** The text `IndentedWrite` puts in front at each level is a parameter
  (`indent`). `IndentedWrite`/`WriteLine` live in the base class, which is not part of this
  model; their effect is modelled on the buffers.
- **Clock.** `DateTime.Now` in the preamble is the constructor parameter `timestamp`.
- **Logging and hooks.** Logging is dropped.
  - `CustomGlobalVariableProcessor` is modelled as a rewrite of the global's text.
  - `FunctionHeaderProcessed` and `BeforeLastClosingBracket` are left out: their effects
    are not visible in this file.
- **Exceptions.** An exception is the sticky `failed` flag:
  - a write with no current source (a null `Writer`);
  - the missing struct-registry key.
  A pass stops where the C# exception would propagate.
- **Crashing shapes.** `WellFormed` requires the child counts that the translator
  dereferences. Excluded are:
  - a `for` with two children, whose null body is dereferenced;
  - a `ParenExpr` without an operand inside AppendGZ;
  - an enumerator without an initializer that the translator itself reaches;
  - missing children of operators and statements.
  Each pass requires `WellFormed` only of what it translates (`EnumsOk`, `GlobalsOk`,
  `StructsOk`, `FunctionsOk`). Struct emission asks it of every field below a record,
  and function emission of every definition's body, even where the record or function
  turns out to have no output.
- **Line endings.** `WriteLine` writes `Environment.NewLine`, which is `\r\n` on Windows.
  The model writes `\n` everywhere.
- **Culture.** `LastIndexOf("}")`, `EndsWith(";")` and `StartsWith("L")` with a string
  argument compare by the current culture. The model compares characters ordinally.
- **Null struct source.** The struct source is a total function. The C# logs a warning
  and then calls the null delegate; that crash is not modelled.
- **Unused parameters.** `UseRefInsteadOfPointer`, `IsPartial` and `RefArguments` are not
  modelled: they are unused in this file. Commented-out code is not modelled.
- **Weaker contracts:**
  - Processor.ConversionProcessor.VisitEnums: states only that buffers keep their preamble and only grow. The exact text per enum is stated by ProcessEnum, not summed over the whole pass.
  - Processor.ConversionProcessor.VisitGlobalVariables: states only that buffers keep their preamble and only grow. The text per global is stated by ProcessGlobal.
  - Processor.ConversionProcessor.VisitFunctions: states only that buffers keep their preamble and only grow and that no exception is raised. The text per function is stated by ProcessFunction.
  - Processor.ConversionProcessor.Run: does not state the final text of each buffer, only the registries, the final pass state, the absence of an exception after the struct passes, and the buffer invariants.
  - Passes.FlatStructText: the exact text of an emitted record is stated only for records whose children are all fields. Nested records are covered by EmitStructsGrows and NestedRecordFails.
  - TranslateFacts.SwitchTranslation: the arm-by-arm text is stated for switch bodies whose items are arms or switch-free statements, not for arms nested deeper inside the body.
  - Passes.NextCounter: the C# counter is a 32-bit `int`, so `i++` after a parsed `2147483647` wraps to `-2147483648`. The model's counter is unbounded, and `TryParseNumber` is not bounded to 32 bits either.
  - Processor.ConversionProcessor.VisitFunctionsCursor: states only that buffers keep their preamble and only grow, with the indent level and failure flag unchanged. The text per function is stated by EmitFunction and ProcessFunction, and which declarations are written by EmitDefinition.
  - Processor.ConversionProcessor.EmitDefinition: says when a declaration is written, not what; the text is stated by EmitFunction, which it calls.
  - Processor.ConversionProcessor.RunDeclarations: states only the final pass state, the unchanged failure flag and the buffer invariants, because VisitEnums and VisitGlobalVariables, which it runs, state no more.
  - Processor.ConversionProcessor.RunFunctions: states the function registry and that emission raises nothing, but not the emitted text, because VisitFunctions states no more.
  - TranslateFacts.ReturnShape: stated for switch-free statements only. A `case` inside changes the switch state, which the exact contract of ProcessReturn still captures.
  - TranslateFacts.IfShape: stated for switch-free statements only; ProcessIf's exact contract covers the rest.
  - TranslateFacts.WhileShape: stated for switch-free statements only; ProcessWhile's exact contract covers the rest.
  - TranslateFacts.LabelShape: stated for switch-free labels only; ProcessLabel's exact contract covers the rest.
  - TranslateFacts.ConditionalShape: stated for switch-free expressions only; ProcessConditional's exact contract covers the rest.
  - TranslateFacts.MemberShape: stated for switch-free expressions only; ProcessMember's exact contract covers the rest.
  - TranslateFacts.SubscriptShape: stated for switch-free expressions only; ProcessSubscript's exact contract covers the rest.
  - TranslateFacts.GZUnaryValue: stated for switch-free operands only; AppendGZUnary's exact contract covers the rest.
  - TranslateFacts.CallShape: stated for switch-free calls only. A `case` inside an argument changes the switch state between arguments, which the exact Texts-based contract of ProcessCall still captures.

## Notes on the code

- **Struct preprocessing re-registers every record.** It tests `_visitedStructs`
  (Ur/ConversionProcessor.cs:127), but that set is only filled by emission, which runs
  later. So every occurrence of a record re-registers it with the same value. The model
  follows the code, and Passes.StructRegistryValues states the outcome.
- **Nested records.** Preprocessing returns `Continue` for a record (line 147), so it
  does not enter records. Emission does enter them (line 210) and indexes the registry
  (line 195). So a record declared inside another record stops the struct pass with a
  missing-key exception when the outer record has an output. Passes.NestedRecordFails
  shows this for `struct A { struct B { int x; } b; };`.
- **Enum counter.** A non-numeric initializer does not reset the counter, unlike C
  (Passes.NonNumericKeepsCounting).
- **Array initializers.** Outside function bodies, an array whose size is given by a
  type, a literal or an expression gets the initializer `new T[n]`
  (Ur/ConversionProcessor.cs:1120-1123). The pointer-or-array branch then replaces every
  array initializer with the uninitialized value (line 1186). So the `new T[n]` text never
  reaches the output (TranslateFacts.VarDeclArray).
- **`for` step placement.** The step of a `for` is placed before the body's statements
  (Ur/ConversionProcessor.cs:885-901), so it runs before the body on each iteration. The
  model keeps this as written (TranslateFacts.ForShape).
