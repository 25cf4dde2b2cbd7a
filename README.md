# ts2go code generator, modelled in Dafny

ts2go translates a subset of TypeScript into Go. This project models its
code-generation backend:

- the indentation-aware line buffer `StringBuilder`;
- the array-backed `Stack<T>` with a floor at its initial length;
- the type-name normaliser `mapTypeName` and its helpers;
- the utilities `firstLetterToUpper` and `createEnumToStringMapFunction`;
- the scoped symbol table `VariableScope`;
- the `EmitContext` with its stack of output builders and the
  `isNumberTypeName` test;
- the emitter `emit.ts`, from `emit` and `emitPreamble` through the
  top-level and block-level dispatchers down to each expression kind.

Module by module:

| file | module | models |
|---|---|---|
| `wrappers.dfy` | `Wrappers` | `Option`, `Result`, `Outcome`; `Collect` runs throwing steps in order and stops at the first error |
| `js_strings.dfy` | `JsStrings` | the ECMAScript string operations the source relies on: `indexOf`, `lastIndexOf`, `substring` with its clamp and swap, `replaceAll`, `join`, `repeat` |
| `utils.dfy` | `Utils` | `src/utils.ts` |
| `type_utils.dfy` | `TypeUtils` | `src/typeUtils.ts` |
| `string_builder.dfy` | `StringBuilders` | `src/stringBuilder.ts`: a class over `seq<Entry>`, plus entry-level functions that specify each method |
| `stack.dfy` | `Stacks` | `src/stack.ts` as a class |
| `variable_scope.dfy` | `VariableScopes` | `src/variableScope.ts` as a class chained to its parent scope |
| `emit_context.dfy` | `EmitContexts` | `src/emitContext.ts` as a class over a `Stack<StringBuilder>` |
| `syntax.dfy` | `Syntax` | the syntax nodes the emitter handles, the type oracle and the errors |
| `pieces.dfy` | `Pieces` | the emitter's separator loops, stated as `join`s |
| `emit_expressions.dfy` | `EmitExpressions`, `EmitExpressionProperties` | the expression emitters (`src/emit.ts` lines 327-796) |
| `emit_statements.dfy` | `EmitStatements`, `EmitStatementProperties` | the statement emitters and the preamble (`src/emit.ts` lines 23-325) |
| `emit.dfy` | `Emitter` | `emit`: the calls replayed on a real `StringBuilder`, and the resulting text |

The emit functions of the source append to `context.output` step by step.
In the model:

- An expression emitter is a function returning the text its appends write,
  or the error it throws. An expression only ever calls `append`, and
  consecutive appends equal one append of their concatenation
  (`StringBuilders.MergeAppends`).
- A statement emitter is a function returning the sequence of builder calls
  it makes (`append`, `appendLine`, `indent`, `unindent`), or the error.
- `Emitter.Run` replays those calls one by one on a `StringBuilder` object.
  `Emitter.Emit` creates an `EmitContext`, replays the preamble and the
  entry file on its output builder, and renders the builder.

The type checker and the module loader are outside the model. They appear as
the `Syntax.Env` parameter, whose four functions are the type oracle:

- `getTypeName` of a node;
- `isArray` of a node;
- `isNumber` of a node;
- the statements of the file an import names (`pushSourceFile`).

Errors are values of `Syntax.EmitFailure`. The `EmitError` message text is
kept; `ImportDepthExceeded` marks an import chain longer than the fuel
bound.

## Model

| member | source | states |
|---|---|---|
| Wrappers.Collect | src/emit.ts:33-37 | a loop of throwing steps succeeds exactly when every step does, with their values in order; otherwise it fails with the error of the first failing step |
| Wrappers.CollectFirstFailure | src/emit.ts:33-37 | the first failing step decides the error, whatever follows it |
| JsStrings.IndexOf | src/typeUtils.ts:19 | `indexOf` of a character: -1 exactly when it is absent, else the position of its first occurrence |
| JsStrings.LastIndexOf | src/typeUtils.ts:20 | `lastIndexOf` of a character: -1 exactly when it is absent, else the position of its last occurrence |
| JsStrings.Substring | src/typeUtils.ts:23 | in-range bounds give the slice between them, in either order; a bound below zero is taken as zero and one past the end as the end |
| JsStrings.ReplaceAll | src/typeUtils.ts:62-64 | `replaceAll` leaves a string without the pattern unchanged |
| JsStrings.Join | src/stringBuilder.ts:60 | `join` of one part is that part; its other cases are characterised by `Pieces.TrailingSeparatedJoin`, `Pieces.BracketedJoin` and `StringBuilders.JoinLinesAppend` |
| JsStrings.RepeatChar | src/stringBuilder.ts:29 | `"\t".repeat(n)` is `n` tab characters |
| Utils.ToUpperAscii | src/utils.ts:21 | upper-casing leaves no lower-case letter and keeps every other character |
| Utils.FirstLetterToUpper | src/utils.ts:15-22 | the empty string is kept; otherwise the first character is upper-cased and the rest is unchanged, so the length is kept |
| Utils.FirstLetterToUpperIdempotent | src/utils.ts:21 | applying `firstLetterToUpper` twice gives what applying it once gives |
| Utils.CreateEnumToStringMap | src/utils.ts:1-13 | the `for ... in` loop builds exactly the reverse table `ReverseMapUpTo` of all members |
| Utils.ReverseMapFirstWins | src/utils.ts:6-11 | a number is recorded exactly when some member holds it, and then with the name of the first member holding it |
| Utils.NameOfReverseMap | src/utils.ts:13 | the returned function gives the first holder's name for a recorded number and `""` for any other |
| TypeUtils.ArrayWrapperName | src/typeUtils.ts:10-12 | `isArrayTypeName` holds exactly for `Array<` + some text + `>` |
| TypeUtils.PointerWrapperName | src/typeUtils.ts:14-16 | `isPointerTypeName` holds exactly for `Pointer<` + some text + `>` |
| TypeUtils.IsArrayTypeName | src/typeUtils.ts:10-12 | no ensures; `ArrayWrapperName` states both directions: it holds exactly for `Array<` + some text + `>` |
| TypeUtils.IsPointerTypeName | src/typeUtils.ts:14-16 | no ensures; `PointerWrapperName` states both directions: it holds exactly for `Pointer<` + some text + `>` |
| TypeUtils.IsFirstCharacterDigit | src/typeUtils.ts:54-60 | no ensures; the first character is one of `0` to `9`; `NumericLiteralName` states what `mapTypeName` does with such a name when it has no `<` and no `[]` suffix, and `DigitNameArray` and `DigitOuterName` what it does otherwise |
| TypeUtils.DesugarArraySuffix | src/typeUtils.ts:30-33 | no ensures; `ArraySugar` states that `T[]` is treated as `Array<T>`, and `ParamsShrink` that the argument taken afterwards is shorter than the name |
| TypeUtils.ReassembleGeneric | src/typeUtils.ts:39-47 | no ensures; characterised by `ReassembleOther` and `ReassemblePointerOfArray` |
| TypeUtils.NormalizeLiterals | src/typeUtils.ts:50-84 | no ensures; each rewrite is stated by `QuotedNameIsString`, `NumericLiteralName`, `PtrSpelling`, `NormalizePlain` and `NormalizeIdentity` |
| TypeUtils.MapTypeName | src/typeUtils.ts:29-85 | no ensures; it ends on every name, agrees with the source whenever the source returns (`AsWrittenAgreesWhenItReturns`), and is characterised by the `TypeUtils` lemmas below |
| TypeUtils.MapGenerics | src/typeUtils.ts:30-48 | no ensures; the generic half of `MapTypeName`, unfolded by `MapGenericUnfold` |
| TypeUtils.MapTypeNameAsWritten | src/typeUtils.ts:29-85 | no ensures; the source's own recursion under a fuel bound, characterised by `AsWrittenReturnsExactly`, `AsWrittenAgreesWhenItReturns` and `MisorderedNeverReturns` |
| TypeUtils.MapGenericsAsWritten | src/typeUtils.ts:30-48 | no ensures; the generic half of `MapTypeNameAsWritten` |
| TypeUtils.GenericTypeNameParams | src/typeUtils.ts:18-27 | `""` when `<` or `>` is missing; the text strictly between the first `<` and the last `>` when they are in order; through the `substring` swap, the text from that `>` through that `<` when they are not |
| TypeUtils.OrderedTypeNameParams | src/typeUtils.ts:18-27 | agrees with `getGenericTypeNameParams` on every name whose brackets are in order, and is shorter than its input or empty |
| TypeUtils.ParamsShrink | src/typeUtils.ts:30-37 | the argument the normaliser recurses on, after the `[]` rewrite, is shorter than the name it came from |
| TypeUtils.ArrayParams | src/typeUtils.ts:44 | the generic argument of `Array<T>` is exactly `T` |
| TypeUtils.MapGenericUnfold | src/typeUtils.ts:35-48 | a name with a generic argument and no `[]` suffix maps to the literal rewrites of its outer name around its mapped argument |
| TypeUtils.AsWrittenReturnsExactly | src/typeUtils.ts:29-85 | the source's recursion returns within `fuel` levels exactly when every level's argument ends within the levels left |
| TypeUtils.AsWrittenAgreesWhenItReturns | src/typeUtils.ts:29-85 | whenever the source's `mapTypeName` returns, it returns what `MapTypeName` computes |
| TypeUtils.SelfArgumentLoops | src/typeUtils.ts:35-37 | a name that is its own generic argument never returns, at any depth |
| TypeUtils.MisorderedNeverTerminates | src/typeUtils.ts:18-37 | for a name whose last `>` precedes its first `<`, the source's recursion never ends |
| TypeUtils.MisorderedNeverReturns | src/typeUtils.ts:18-37 | for such a name the source's `mapTypeName` returns within no depth at all |
| TypeUtils.MisorderedParams | src/typeUtils.ts:18-27 | the argument taken from a misordered name is misordered and is its own argument |
| TypeUtils.MisorderedExample | src/typeUtils.ts:18-37 | `"><"` is its own argument, the source loops on it, and `MapTypeName` keeps it unchanged |
| TypeUtils.NormalizeIdentity | src/typeUtils.ts:50-84 | a name that no literal rewrite applies to is left unchanged |
| TypeUtils.PlainNameMapping | src/typeUtils.ts:29-85 | a bare identifier maps to `bool` when it is `boolean`, `true` or `false`, to `i32` when it is `number`, and to itself otherwise, and the result is again a bare identifier |
| TypeUtils.NormalizePlain | src/typeUtils.ts:72-82 | the keyword switch on a bare identifier changes only the four keyword names |
| TypeUtils.GenericShape | src/typeUtils.ts:18-27 | for `outer<arg>` with no other bracket, the argument is `arg` and the outer name is the text before the `<` |
| TypeUtils.GenericOfPlain | src/typeUtils.ts:35-48 | `outer<arg>` over a bare identifier keeps its outer name and maps its argument; this holds for `Pointer` too, since a bare identifier never maps to an array |
| TypeUtils.ReassembleOther | src/typeUtils.ts:39-47 | the mapped argument goes between the brackets after the outer name, unless the outer name is `Pointer` and the mapped argument is an array |
| TypeUtils.ArraySugar | src/typeUtils.ts:30-33 | `T[]` and `Array<T>` map to the same name, for every `T` |
| TypeUtils.ArrayOfPlain | src/typeUtils.ts:30-48 | an array of a bare identifier maps to `Array<` + the mapped identifier + `>` |
| TypeUtils.PointerOfArrayCollapses | src/typeUtils.ts:41-45 | `Pointer<T[]>` over a bare identifier `T` maps to `Pointer<` + the mapped `T` + `>`: the array wrapper is dropped |
| TypeUtils.QuotedNameIsString | src/typeUtils.ts:50-52 | a double-quoted literal type with no `<` in it maps to `string`; with a `<`, the generic rewrite at lines 35-47 runs first and can drop the closing quote |
| TypeUtils.NumericLiteralName | src/typeUtils.ts:54-60 | a name starting with a digit, with no `<` and no `[]` suffix, maps to `f64` when it has a `.`, and to `i32` otherwise; with a `<` or the suffix, the generic rewrite at lines 30-47 runs first |
| TypeUtils.GenericOfDigitName | src/typeUtils.ts:35-48 | `outer<n>` over a numeric literal `n` keeps its outer name and maps its argument to `f64` or `i32` |
| TypeUtils.DigitNameArray | src/typeUtils.ts:30-47 | `n[]` for a numeric literal `n` maps to `Array<` + the mapped `n` + `>`, so `1[]` is `Array<i32>`, not a number |
| TypeUtils.DigitOuterName | src/typeUtils.ts:35-60 | a digit-initial `outer<n>` over a numeric literal, with no `.` in `outer`, maps to `i32`: the digit test sees the mapped argument, so `1<2.5>` loses its `.` |
| TypeUtils.ReplacePtrPrefix | src/typeUtils.ts:68-70 | the `ptr<` rewrite replaces a leading `ptr<` and nothing in the rest of the name |
| TypeUtils.PtrSpelling | src/typeUtils.ts:68-70 | `ptr<T>` maps as `Pointer<T>` would, with the argument mapped first |
| TypeUtils.PtrOfArrayNotCollapsed | src/typeUtils.ts:43-70 | `ptr<T[]>` maps to `Pointer<Array<` + the mapped `T` + `>>`: the collapse check runs before the `ptr<` rewrite, so the array stays |
| TypeUtils.MapTypeNameIdempotentOnPlain | src/typeUtils.ts:29-85 | mapping a bare identifier, or an array of one, a second time changes nothing |
| TypeUtils.TypeNameExamples | src/typeUtils.ts:29-85 | `number` is `i32`, `boolean` is `bool`, `number[]` is `Array<i32>`, `Pointer<i32[]>` is `Pointer<i32>`, `ptr<i32[]>` is `Pointer<Array<i32>>`, and `Pointer<Array<i32>>` is `Pointer<i32>` |
| TypeUtils.PointerOfExplicitArrayCollapses | src/typeUtils.ts:36-45 | `Pointer<Array<T>>` over a mapped bare identifier `T` maps to `Pointer<T>`, as `Pointer<T[]>` does |
| TypeUtils.PtrOfArrayRemapChanges | src/typeUtils.ts:41-70 | mapping the result for `ptr<T[]>` a second time gives `Pointer<` + the mapped `T` + `>`, which differs from the first result, so `mapTypeName` is not idempotent there |
| TypeUtils.MapTypeNamePointerFirst | src/typeUtils.ts:41-70 | no ensures; the corrected mapping, which respells `ptr<` as `Pointer<` before the generic step; characterised by the five `PointerFirst` lemmas |
| TypeUtils.RespellPtrOfArray | src/typeUtils.ts:68-70 | the `ptr<` rewrite turns `ptr<T[]>` into exactly `Pointer<T[]>` |
| TypeUtils.PointerFirstWithoutPtr | src/typeUtils.ts:68-70 | on a name without `ptr<` the corrected mapping is the source's |
| TypeUtils.PointerFirstOnPtrArray | src/typeUtils.ts:41-45 | with the respelling first, `ptr<T[]>` maps as `Pointer<T[]>` does, to `Pointer<` + the mapped `T` + `>` |
| TypeUtils.PointerFirstIdempotentOnPtrArray | src/typeUtils.ts:29-85 | the corrected mapping leaves its result for `ptr<T[]>` unchanged when applied again |
| TypeUtils.PointerFirstOnGenericOfPlain | src/typeUtils.ts:35-48 | the corrected mapping treats `outer<T>` over bare identifiers, `Pointer<T>` included, as the source does |
| TypeUtils.PointerFirstAgreesOnPlain | src/typeUtils.ts:29-85 | on bare identifiers and arrays of them the corrected mapping is the source's |
| TypeUtils.PointerFirstIdempotentOnPlain | src/typeUtils.ts:29-85 | the corrected mapping is idempotent on bare identifiers and arrays of them |
| StringBuilders.AppendTo | src/stringBuilder.ts:27-32 | `append` fails exactly when the current line is empty and the level is negative; otherwise earlier entries are kept, and the current line gets the value, after `indentLevel` tabs when it was empty |
| StringBuilders.AppendTwice | src/stringBuilder.ts:27-32 | two appends in a row write what one append of both values writes, and fail when it fails |
| StringBuilders.MergeAppends | src/stringBuilder.ts:27-32 | in any sequence of calls, two consecutive appends can be replaced by one append of their concatenation |
| StringBuilders.AppendLineTo | src/stringBuilder.ts:34-39 | `appendLine` appends a non-empty value as `append` does, then adds exactly one empty line; an empty value leaves the current line alone; it fails exactly when that append fails |
| StringBuilders.RemoveLineFrom | src/stringBuilder.ts:41-47 | a non-empty current line is cleared and the count kept; an empty one is dropped, so the previous entry becomes current; earlier entries are kept |
| StringBuilders.RemoveLineUndoesAppendLine | src/stringBuilder.ts:34-47 | `appendLine()` followed by `removeLine()` restores the entries |
| StringBuilders.RemoveLineClearsWholeLine | src/stringBuilder.ts:41-44 | after a non-empty append on a written line, `removeLine` clears the whole line, not only the appended text |
| StringBuilders.Step | src/stringBuilder.ts:19-39 | a call changes the level only by its own delta and fails exactly when it appends text to an empty line at a negative level |
| StringBuilders.Replay | src/stringBuilder.ts:19-39 | after a sequence of calls the level is the start level plus the calls' net change |
| StringBuilders.ReplayConcat | src/stringBuilder.ts:19-39 | replaying two sequences is replaying the first, then the second from where it stopped |
| StringBuilders.KeepsNeverFails | src/stringBuilder.ts:19-32 | calls that never take the level below zero never make `"\t".repeat` throw |
| StringBuilders.Strip | src/stringBuilder.ts:59 | one trailing line terminator is removed, and nothing else |
| StringBuilders.JoinLinesAppend | src/stringBuilder.ts:56-60 | in the intended rendering each entry contributes its stripped text once, in order, separated by one terminator |
| StringBuilders.RenderAgreesOnEmptyLine | src/stringBuilder.ts:55-67 | with an empty current line, `toString` as written is the intended rendering |
| StringBuilders.RenderDoublesCurrentLine | src/stringBuilder.ts:62-64 | with a non-empty current line, `toString` as written is the intended rendering followed by the current line once more |
| StringBuilders.DoublingExample | src/stringBuilder.ts:55-67 | the entries `a` render as `aa`, and `a`,`b` as `a` + EOL + `bb`, where `a` + EOL + `b` is meant |
| StringBuilders.RenderAsWritten | src/stringBuilder.ts:55-67 | no ensures; `RenderAgreesOnEmptyLine` and `RenderDoublesCurrentLine` relate it to `JoinLines` |
| StringBuilders.JoinLines | src/stringBuilder.ts:56-60 | no ensures; the intended rendering, characterised by `JoinLinesAppend` |
| StringBuilders.StringBuilder.constructor | src/stringBuilder.ts:4-5 | a new builder holds one empty line at level zero |
| StringBuilders.StringBuilder.Texts | src/stringBuilder.ts:56-57 | one rendered text per entry |
| StringBuilders.StringBuilder.TextsUpTo | src/stringBuilder.ts:56-57 | the texts of the first `k` entries, a line entry rendering as its own text |
| StringBuilders.StringBuilder.ToString | src/stringBuilder.ts:55-67 | no ensures; `RenderAsWritten` of the rendered entries, so the findings below apply to it; `Emitter.RenderLines` states the rendering of a builder of lines |
| StringBuilders.StringBuilder.Indent | src/stringBuilder.ts:19-21 | the level goes up by one and the entries are kept |
| StringBuilders.StringBuilder.Unindent | src/stringBuilder.ts:23-25 | the level goes down by one, with no lower bound, and the entries are kept |
| StringBuilders.StringBuilder.Append | src/stringBuilder.ts:27-32 | the new entries are `AppendTo` of the old ones; on the `RangeError` nothing changes |
| StringBuilders.StringBuilder.AppendLine | src/stringBuilder.ts:34-39 | the new entries are `AppendLineTo` of the old ones; on the error nothing changes |
| StringBuilders.StringBuilder.RemoveLine | src/stringBuilder.ts:41-47 | the new entries are `RemoveLineFrom` of the old ones, and the level is kept |
| StringBuilders.StringBuilder.InsertPlaceholder | src/stringBuilder.ts:49-53 | a fresh empty builder is returned, and it and a new empty line are added after the existing entries |
| Stacks.Stack.constructor | src/stack.ts:5-8 | the initial elements are the contents, and their number is the floor |
| Stacks.Stack.At | src/stack.ts:10-16 | the element at the index when there is one; otherwise `Index out of bounds` |
| Stacks.Stack.Push | src/stack.ts:18-20 | the item is added at the end and nothing else changes |
| Stacks.Stack.Pop | src/stack.ts:22-27 | fails with `Stack is empty.` and changes nothing exactly when only the floor is left; otherwise removes and returns the last element |
| Stacks.Stack.Top | src/stack.ts:29-34 | fails with `Stack empty.` exactly when there is no element, the floor notwithstanding; otherwise returns the last element |
| Stacks.PushThenPop | src/stack.ts:18-27 | a push followed by a pop returns the pushed item and restores the contents |
| VariableScopes.FindAlias | src/variableScope.ts:28-30 | the position of the first alias with the given name, or -1 exactly when no alias has it |
| VariableScopes.VariableScope.constructor | src/variableScope.ts:15-20 | a new scope is empty and chained to the given parent |
| VariableScopes.VariableScope.GetType | src/variableScope.ts:43-45 | a name of this scope gives this scope's type |
| VariableScopes.GetTypeInnermost | src/variableScope.ts:43-45 | a lookup finds a type exactly when some scope of the chain declares the name, and then it is the type in the innermost such scope |
| VariableScopes.VariableScope.Declare | src/variableScope.ts:22-34 | fails exactly when the name is in this scope, changing nothing; otherwise records the type as not initialised, shadowing any parent, and marks exactly the first alias named like the type as used |
| VariableScopes.VariableScope.Set | src/variableScope.ts:36-41 | fails exactly when the name is not in this scope, the parent not consulted; otherwise only marks the variable initialised, keeping its type |
| EmitContexts.EmitContext.constructor | src/emitContext.ts:24-27 | the context holds the entry file and a stack of one fresh builder, which is the floor |
| EmitContexts.EmitContext.GetOutput | src/emitContext.ts:29-31 | `output` is the top builder and never fails |
| EmitContexts.EmitContext.Output | src/emitContext.ts:29-31 | no ensures; the top of the output stack, which `GetOutput` returns without failing |
| EmitContexts.EmitContext.PushOutput | src/emitContext.ts:33-35 | the pushed builder becomes `output` |
| EmitContexts.EmitContext.PopOutput | src/emitContext.ts:37-39 | fails exactly when only the base builder is left; otherwise removes the top builder |
| EmitContexts.RedirectOutput | src/emitContext.ts:33-39 | pushing a builder and popping it again succeeds and gives the previous `output` back |
| EmitContexts.IsNumberTypeName | src/emitContext.ts:140-153 | no ensures; `NumberTypeNameShape` states exactly which names it accepts |
| EmitContexts.NumberTypeNameShape | src/emitContext.ts:140-153 | the numeric names are exactly `i`/`u` with 8, 16, 32 or 64 and `f` with 32 or 64 |
| EmitContexts.MappedNumbersAreNumeric | src/emitContext.ts:140-153 | what `mapTypeName` makes of `number`, and of a numeric literal name with no `<` whose last character is not `]`, is numeric |
| EmitContexts.MappedNonNumbers | src/emitContext.ts:140-153 | string literal types with no `<` in them do not map to numeric names |
| EmitContexts.BooleanNotNumeric | src/emitContext.ts:140-153 | `boolean` does not map to a numeric name |
| Syntax.NodeKindName | src/tsUtils.ts:8-16 | no ensures; the first name declared for the token's kind, as the first-wins reverse table of `createEnumToStringMapFunction` gives it (`Utils.ReverseMapFirstWins`) |
| Syntax.EnumKindName | src/emit.ts:650-657 | no ensures; the last alias declared for the token's kind, as `ts.SyntaxKind[kind]` gives it |
| Syntax.KindNameAliases | src/emit.ts:650-657 | among the tokens the model names, the two kind names differ exactly for `=`, `<` and `+=`, which later enumeration members alias; an unnamed token carries one name for both |
| Pieces.TrailingSeparatedJoin | src/emit.ts:430-435 | a separator after every element but the last forms the `join` of the elements |
| Pieces.BracketedJoin | src/emit.ts:756-776 | a separator before every element but the first, framed by an opening and a closing text, forms the framed `join`, and nothing for no element |
| Pieces.VerbCount | src/emit.ts:535-549 | without `%` in the literal texts the format string has exactly one verb per span |
| Pieces.ArgumentTailJoin | src/emit.ts:553-556 | `, value` per expression is the values joined by `, ` after one more `, ` |
| EmitExpressions.BinaryOperatorText | src/emit.ts:446-509 | the 13 binary tokens become their own spelling with a space on each side, and no other token has a text |
| EmitExpressions.PrefixOperatorText | src/emit.ts:633-649 | `!`, `-`, `--` and `++` are written as spelled, and no other prefix operator has a text |
| EmitExpressions.PostfixOperatorText | src/emit.ts:669-677 | `--` and `++` are written as spelled, and no other postfix operator has a text |
| EmitExpressions.EmitExpression | src/emit.ts:327-420 | no ensures; dispatch on the node kind: each kind is characterised by the `EmitExpressionProperties` lemmas, and any other kind by `ExpressionDispatchMiss`; identifiers and numbers are written as they are, strings between double quotes and booleans as `true` or `false` |
| EmitExpressions.EmitArrayLiteral | src/emit.ts:422-438 | no ensures; characterised by `ListEmission` |
| EmitExpressions.EmitBinary | src/emit.ts:440-525 | no ensures; characterised by `BinaryEmission`, `BinaryLeftError`, `BinaryOperatorMiss` and `BinaryRightError` |
| EmitExpressions.EmitTemplate | src/emit.ts:527-559 | no ensures; characterised by `TemplateEmission` |
| EmitExpressions.EmitCall | src/emit.ts:572-617 | no ensures; characterised by `ListEmission` |
| EmitExpressions.EmitElementAccess | src/emit.ts:619-627 | no ensures; characterised by `ElementAccessEmission` |
| EmitExpressions.EmitPrefixUnary | src/emit.ts:629-661 | no ensures; characterised by `PrefixUnaryEmission` |
| EmitExpressions.EmitPostfixUnary | src/emit.ts:663-687 | no ensures; characterised by `PostfixUnaryEmission` and `PostfixOperandFirst` |
| EmitExpressions.EmitPropertyAccess | src/emit.ts:689-714 | no ensures; characterised by `PropertyAccessEmission` |
| EmitExpressions.EmitObjectLiteral | src/emit.ts:741-780 | no ensures; characterised by `ObjectLiteralEmission` and `ObjectLiteralOtherMember` |
| EmitExpressions.EmitParenthesized | src/emit.ts:782-789 | no ensures; characterised by `ParenthesizedEmission` |
| EmitExpressionProperties.ListEmission | src/emit.ts:422-438 | an array literal is its type and the elements joined by `, ` between braces; a call is its callee and the arguments joined by `, ` between parentheses |
| EmitExpressionProperties.BinaryEmission | src/emit.ts:440-525 | left, spaced operator, right; the right operand is wrapped in `fmt.Sprintf("%v", …)` exactly when the left is a string and the right is not |
| EmitExpressionProperties.BinaryLeftError | src/emit.ts:440-444 | a failing left operand fails the expression with its own error |
| EmitExpressionProperties.BinaryOperatorMiss | src/emit.ts:499-508 | then a token that is not a binary operator fails with its kind name |
| EmitExpressionProperties.BinaryRightError | src/emit.ts:511-524 | only then does a failing right operand fail the expression |
| EmitExpressionProperties.TemplateEmission | src/emit.ts:527-559 | `fmt.Sprintf("` + head + `%s` and literal per span + `"` + the span values after `, ` + `)`; without `%` in the texts the verbs number the arguments |
| EmitExpressionProperties.PrefixUnaryEmission | src/emit.ts:629-661 | the operator before the operand; an unknown operator fails before the operand is emitted |
| EmitExpressionProperties.PostfixUnaryEmission | src/emit.ts:663-687 | once the operand is emitted, the operator follows it; an unknown operator fails with its kind name |
| EmitExpressionProperties.PostfixOperandFirst | src/emit.ts:663-668 | a failing operand is reported before an unknown operator is looked at |
| EmitExpressionProperties.PropertyAccessEmission | src/emit.ts:689-714 | `.length` of an array is `len(…)`; any other member follows a dot with its first letter upper-cased |
| EmitExpressionProperties.ObjectLiteralEmission | src/emit.ts:741-780 | `{}` when empty; otherwise `{ ` + the members `.key = value`, keys as written, joined by `, ` + ` }` |
| EmitExpressionProperties.ObjectLiteralOtherMember | src/emit.ts:760-776 | a member of another kind, after members that emit, fails with its kind name |
| EmitExpressionProperties.ElementAccessEmission | src/emit.ts:619-627 | the target, then the index between `[` and `]`; a failing target is reported before the index is emitted |
| EmitExpressionProperties.ParenthesizedEmission | src/emit.ts:782-789 | the inner expression between parentheses, or the inner expression's error |
| EmitExpressionProperties.ExpressionDispatchMiss | src/emit.ts:411-418 | a kind `emitExpression` does not handle fails with an error naming the kind and `emitExpression` |
| EmitStatements.Preamble | src/emit.ts:23-31 | no ensures; `Emitter.PreambleState` states the lines it leaves |
| EmitStatements.EmitSourceFile | src/emit.ts:33-37 | no ensures; characterised by `SourceFileBalanced`, `SourceFileFirstError` and `Emitter.SourceFileClosed` |
| EmitStatements.EmitTopLevel | src/emit.ts:39-73 | no ensures; characterised by `TopLevelBalanced`, `DispatchMisses`, `SelfImportFails` and `Emitter.TopLevelClosed` |
| EmitStatements.EmitFunctionDeclaration | src/emit.ts:75-130 | no ensures; characterised by `FunctionDeclarationEmission`, `FunctionDeclarationErrors`, `FunctionBalanced` and `Emitter.FunctionClosed` |
| EmitStatements.EmitDeclarationList | src/emit.ts:177-209 | no ensures; characterised by `VariableStatementEmission` |
| EmitStatements.EmitDeclaration | src/emit.ts:184-208 | no ensures; characterised by `DeclarationEmission` |
| EmitStatements.EmitBlock | src/emit.ts:211-221 | no ensures; characterised by `BlockBalanced` and `BlockFirstError` |
| EmitStatements.EmitStatement | src/emit.ts:223-269 | no ensures; characterised by `StatementBalanced`, `DispatchMisses`, `SimpleStatementEmission`, `ForStatementEmission` and `VariableStatementEmission` |
| EmitStatements.EmitForInitializer | src/emit.ts:283-297 | no ensures; characterised by `ForStatementEmission` |
| EmitStatements.EmitProgram | src/emit.ts:8-21 | no ensures; characterised by `ProgramNeverThrows`, `Emitter.ProgramClosed` and `Emitter.EmitText` |
| EmitStatementProperties.FunctionDeclarationEmission | src/emit.ts:75-130 | `func name(` + `pname ptype` joined by `, ` + `)`, then ` ret` unless the return type is `void`, a space, the block and two line ends |
| EmitStatementProperties.FunctionDeclarationErrors | src/emit.ts:79-125 | a missing name, return type or body is an error, checked in that order |
| EmitStatementProperties.DeclarationEmission | src/emit.ts:184-208 | `name := value`, wrapped in a conversion to the declared type exactly when `isNumber` holds, or `var name type` |
| EmitStatementProperties.VariableStatementEmission | src/emit.ts:152-209 | the declarations are written one after the other on one line, with no separator |
| EmitStatementProperties.SimpleStatementEmission | src/emit.ts:271-325 | an expression statement writes its text and ends the line; `return e` writes `return ` and the value and ends the line; a bare `return` is one line |
| EmitStatementProperties.ForStatementEmission | src/emit.ts:279-312 | `for init; cond; incr ` on the current line, then the body's calls, then a line end; an absent part is written as nothing, and a declaration list as `emitVariableDeclarationList` writes it |
| EmitStatementProperties.StatementBalanced | src/emit.ts:223-325 | a block-level statement never takes the level below where it started and ends where it started |
| EmitStatementProperties.BlockBalanced | src/emit.ts:211-221 | a block indents its statements one level and ends at its own level |
| EmitStatementProperties.FunctionBalanced | src/emit.ts:75-130 | a function declaration ends at the level it started at |
| EmitStatementProperties.TopLevelBalanced | src/emit.ts:39-73 | a top-level statement, imported files included, ends at the level it started at |
| EmitStatementProperties.SourceFileBalanced | src/emit.ts:33-37 | a source file ends at the level it started at |
| EmitStatementProperties.ProgramNeverThrows | src/emit.ts:8-21 | the builder calls of a whole program never throw on a new builder, and leave the level at zero |
| EmitStatementProperties.BlockFirstError | src/emit.ts:211-221 | a block fails with the error of its first failing statement |
| EmitStatementProperties.SourceFileFirstError | src/emit.ts:33-37 | a source file fails with the error of its first failing statement |
| EmitStatementProperties.DispatchMisses | src/emit.ts:64-71 | a kind the top-level dispatcher does not handle fails naming it and `emitTopLevelStatement`; likewise at block level (lines 260-267) with `emitBlockLevelStatement` |
| EmitStatementProperties.SelfImportFails | src/emit.ts:132-146 | a file that imports itself fails at the import depth bound, whatever the bound |
| Emitter.StepKeepsLines | src/stringBuilder.ts:27-39 | the emitter's calls never put a placeholder into a builder of lines |
| Emitter.ReplayKeepsLines | src/stringBuilder.ts:27-39 | neither does any sequence of them |
| Emitter.FunctionClosed | src/emit.ts:126-129 | a function declaration ends with a line end |
| Emitter.SourceFileClosed | src/emit.ts:33-37 | a source file, imported ones included, is empty or ends with a line end |
| Emitter.TopLevelClosed | src/emit.ts:39-73 | a top-level statement's calls are empty, as for the import of an empty file, or end with a line end |
| Emitter.ProgramClosed | src/emit.ts:8-21 | a program's calls end with a line end |
| Emitter.ReplayEndsLine | src/stringBuilder.ts:34-39 | after a final `appendLine()` the current line is empty |
| Emitter.EmitText | src/emit.ts:8-21 | `emit` returns text exactly when the emit functions do not throw, and otherwise their error |
| Emitter.EmitTextJoinsLines | src/emit.ts:8-21 | the program text is its lines, each once, joined with line ends: the current line is empty, so `toString` repeats nothing |
| Emitter.RunOne | src/stringBuilder.ts:19-39 | one call on a `StringBuilder` object does what `Step` says, failure included |
| Emitter.Run | src/emit.ts:14-16 | calls replayed on a `StringBuilder` object succeed exactly when `Replay` does, and then leave the state it computes |
| Emitter.RenderLines | src/stringBuilder.ts:55-67 | a builder of lines with an empty current line renders each line once |
| Emitter.Emit | src/emit.ts:8-21 | a new context, the preamble and the entry file written to its output builder, and that builder's text, equal to `EmitText` |
| Emitter.EmitInto | src/emit.ts:14-19 | the preamble and the entry file written to a fresh builder give `EmitText` |
| Emitter.WriteLinesAtZero | src/stringBuilder.ts:34-39 | at level zero each `appendLine` on an empty current line adds its value as an entry of its own |
| Emitter.PreambleState | src/emit.ts:23-31 | the preamble leaves its seven lines as entries, an empty current line, and level zero |

## Left out

- EmitFailure: the `(line+1, character+1): ` prefix that `EmitError` puts before each message needs source positions. `src/emitError.ts` is not part of this model, so an error carries only the node identifier and the message.
- StringBuilders.StringBuilder.Append: the `RangeError` that `"\t".repeat` throws for a negative count is reduced to the message `Invalid count value`.
- StringBuilders.StringBuilder.RemoveLine: the source lets an empty current line be dropped even when the entry before it is a placeholder, or when there is no entry before it. The next call would then use that placeholder or nothing as the current line. The method requires that the entry before is a line instead of modelling that state. `StringBuilders.RemoveLineFrom` carries the same requirement.
- StringBuilders.RemoveLineFrom: it requires what `StringBuilders.StringBuilder.RemoveLine` requires, a line before an empty current line, for the same reason.
- StringBuilders.StringBuilder.InsertPlaceholder: the model does not state as a lemma that later writes to the returned builder show up at the placeholder's position in the parent's rendering. `Texts` renders a placeholder by its own `ToString`, which carries this.
- StringBuilders.StringBuilder.Texts: a placeholder's text is only defined through the recursive `ToString`; the contract states the line entries only.
- StringBuilders.StringBuilder.ToString: it is the function `RenderAsWritten` of the rendered entries. Its properties are stated by `RenderAgreesOnEmptyLine`, `RenderDoublesCurrentLine` and `Emitter.RenderLines`, not by an `ensures` of its own.
- StringBuilders.EOL: it is fixed to `"\n"`, the value of `EOL` from `node:os` on Linux and macOS. The Windows value `"\r\n"` is not modelled. It would change the separator of the join at line 60 of `src/stringBuilder.ts` and the terminator stripped at line 59.
- VariableScopes.VariableScope.constructor: the source keeps a reference to the context's `types` array (src/variableScope.ts:18, read at line 28), which the context could grow later. The model keeps the alias objects themselves, so marking one as used is seen by every scope, but it takes the array's membership as a sequence when the scope is built, so an alias added afterwards is not seen. The context's own `types` field is commented out (src/emitContext.ts:18), so nothing adds to that array.
- Syntax.KindNameAliases: an `OtherToken` carries a single kind name, used both as the first-declared name and as the `ts.SyntaxKind` name. For real kinds such as `CaretEqualsToken` the two differ, but no emitter path prints such a token's `ts.SyntaxKind` name.
- Stacks.Stack.constructor: the source keeps the caller's array itself, so a caller holding it sees later pushes. The model copies the elements into a sequence, so no such aliasing is modelled.
- Stacks.Stack.At: the source also fails on an index that holds `undefined`. The model has no `undefined` elements, so it fails only for an index out of range. A non-integer index is not modelled.
- JsStrings.ReplaceAll: its contract states only that a string without the pattern is unchanged. The `ptr<` and `number[]` rewrites are characterised by `TypeUtils.ReplacePtrPrefix` and `TypeUtils.NormalizeIdentity`.
- Utils.FirstLetterToUpper: upper-casing is ASCII only. Unicode case mapping, which can change the length, is not modelled.
- TypeUtils.IsFirstCharacterDigit: it is imported by `src/typeUtils.ts`, but `src/utils.ts` does not define it. The model takes it to be "the first character is one of `0` to `9`".
- TypeUtils.MapTypeNameIdempotentOnPlain: idempotence is stated for bare identifiers and arrays of them only. On generic names it does not hold in general: `ptr<T[]>` is a counterexample (see Findings).
- TypeUtils.MapTypeName: the source recurses forever on misordered brackets. The model recurses on `OrderedTypeNameParams` instead (see Findings). `MapTypeNameAsWritten` keeps the source's recursion under a fuel bound.
- hasTypeProperty (`src/typeUtils.ts` lines 4-8): it inspects a compiler node, so it is not modelled.
- The type oracle: `getTypeName`, `isArray`, `isNumber`, `pushSourceFile` and `popSourceFile` are called by `src/emit.ts` but not defined in `src/emitContext.ts`. They are the parameter `Syntax.Env`, and the source-file stack is not modelled.
- EmitStatements.EmitTopLevel: the source follows import cycles forever. The model bounds the depth of nested imports by `fuel` and fails with `ImportDepthExceeded`.
- EmitExpressions.EmitExpression: `emitMemberName` and `emitIdentifier` write the identifier's text. They are folded into the property-access and identifier cases. Escaping of identifiers beginning with `__` is not modelled.
- EmitExpressions.EmitObjectLiteral: object keys are taken to be identifiers. The source reads a key's `escapedText` through a cast to `ts.Identifier` (src/emit.ts:757, 763 and 725). A key that is a string or numeric literal has no such text, so the source writes `undefined` or throws where the model writes the key as spelled. A member of another kind fails after the members before it have been emitted.
- EmitStatements.EmitFunctionDeclaration: parameter names are taken to be identifiers. The source reads `escapedText` through a cast to `ts.Identifier` (src/emit.ts:97), so a destructured parameter would print as `undefined`.
- EmitStatements.EmitDeclaration: variable names are taken to be identifiers. The source passes the name to `emitIdentifier` through a cast (src/emit.ts:188 and 204), so a binding pattern has no `escapedText` and the source writes `undefined` or throws where the model writes the name.
- Failing emission: the model returns the error alone. The text that the source has already appended to the builder before it throws is not modelled, since `emit` does not return it.
- EmitExpressions.EmitTemplate: the source tests `templateSpan.expression` before pushing it. A span always has an expression, so the model pushes every one.
- Commented-out code in `src/emit.ts` and `src/emitContext.ts` is not modelled. This covers interfaces, type aliases, `if`/`while`/`do`, `as`, number-to-string conversion and the scope stack.
- TypeUtils.DesugarArraySuffix: its `substring` call has bounds in range and in order, so it is modelled as a plain slice. The clamp and swap of `substring` are kept where the source can reach them, in `getGenericTypeNameParams`.
- Emitter.PreambleState: the preamble is stated as its seven lines, not as the single rendered string.

## Findings

| source | as written | input that shows it | evidently intended | confidence | as-written member | corrected member |
|---|---|---|---|---|---|---|
| src/stringBuilder.ts:62-64 | `toString` joins every entry, the current line included, and then appends a non-empty current line once more | `append("a")`, `appendLine()`, `append("b")`, then `toString()` gives `a` + EOL + `bb` | each entry once: `a` + EOL + `b` | not executed | StringBuilders.RenderDoublesCurrentLine | StringBuilders.JoinLinesAppend |
| src/typeUtils.ts:18-37 | `getGenericTypeNameParams` passes `substring` a start after its end when the last `>` precedes the first `<`; `substring` swaps them, and the result is again such a name, so `mapTypeName` calls itself on the same name without end, which in a JavaScript engine ends in `RangeError: Maximum call stack size exceeded`, thrown out of `emit` | `mapTypeName("><")` | no generic argument, so the name is kept as it is | not executed | TypeUtils.MisorderedNeverTerminates | TypeUtils.AsWrittenAgreesWhenItReturns |
| src/typeUtils.ts:41-70 | the `Pointer` collapse at lines 41-45 runs before the `ptr<` respelling at lines 68-70, so `ptr<T[]>` keeps its array as `Pointer<Array<T>>`, and a second mapping collapses that to `Pointer<T>` | `mapTypeName("ptr<i32[]>")` is `Pointer<Array<i32>>`, and mapping that again gives `Pointer<i32>` | mapping is idempotent, as on the other samples, and `ptr<T[]>` maps as `Pointer<T[]>` does | not executed | TypeUtils.PtrOfArrayRemapChanges | TypeUtils.PointerFirstIdempotentOnPtrArray |

The first finding (src/stringBuilder.ts:62-64) does not show in emitted programs. Every program ends with
a line end, so the current line is empty when `toString` runs
(`Emitter.EmitTextJoinsLines`). `StringBuilders.DoublingExample` gives the
concrete renderings.

In the second finding (src/typeUtils.ts:18-37), `TypeUtils.MapTypeName` is
the corrected definition.
It takes the argument with `OrderedTypeNameParams`, which is shorter than
the name, so the recursion ends. `TypeUtils.MisorderedExample` shows that
the source loops on `"><"`, while `MapTypeName` keeps it unchanged.
`TypeUtils.AsWrittenAgreesWhenItReturns` shows that the two definitions
agree whenever the source returns.

In the third finding (src/typeUtils.ts:41-70),
`TypeUtils.MapTypeNamePointerFirst` is the corrected definition. It respells `ptr<` as `Pointer<` before the generic step, so
`ptr<T[]>` collapses like `Pointer<T[]>`
(`TypeUtils.PointerFirstOnPtrArray`), and a second mapping changes nothing
(`TypeUtils.PointerFirstIdempotentOnPtrArray`). On names without `ptr<`,
bare identifiers and their arrays among them, it agrees with the source
(`TypeUtils.PointerFirstWithoutPtr`, `TypeUtils.PointerFirstAgreesOnPlain`).
The emitter receives type names already mapped, through `Syntax.Env`, so no
other part of the model calls either mapping. The `EmitContexts` lemmas
about mapped names concern names without `ptr<`, where the two agree.
