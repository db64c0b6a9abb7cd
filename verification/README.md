# LL(1) translator and x86 lowering of a small C-like compiler

This project models the core of a teaching compiler for a small C-like language
(`void main() { … }` with declarations, assignments, `printf`/`scanf`, `if`/`else`,
`while` and `for`). It covers two parts:

- The table-driven **LL(1) parser with semantic actions** (`Grammar`). It keeps an
  analysis stack seeded with `$ S` and a word list from the lexer. The loop runs
  while both the analysis stack and the semantic stack are non-empty, for at most
  5000 iterations. Each iteration first records a trace entry, then does one of these:
  - stops with the error flag raised when the word list is empty;
  - accepts when the top is `$` and the word is `$`: both are popped, which empties
    the stack and ends the loop;
  - pops a `$` top facing any other word and raises the error flag, recording no error;
  - matches a terminal against the first word, recording a mismatch error when they differ;
  - expands a non-terminal through the production catalog, selected by that word,
    recording an error when no alternative fits;
  - runs an action marker (`@ADD_SUB`, `@IF_FJ`, …).
- The actions keep a semantic stack, issue temporaries `T0, T1, …`, emit quadruples
  `(op, arg1, arg2, result)` and backpatch jump targets through six pending-jump stacks.
- The **lowering** (`Assembly`) of the quadruple list to an assembly listing. It writes
  a data section with one entry per declaration quadruple, then the fixed text header,
  then the instructions picked by the first character of each quadruple's operator.
  The indentation counter `now` grows by 4 inside loops.

The model is functional. Parser and interpreter states are immutable records, and
stacks are sequences with the top at the end. Two JavaScript values that leak into
quadruples are kept as the value type `Val`:

- `undefined`, from popping an empty stack;
- `null`, from `top()` of an empty stack or a cleared `op` register.

They render as `"undefined"` and `"null"` when concatenated. Where the JavaScript
throws, the model returns an explicit outcome:

- a backpatch with nothing to resolve gives `Threw`;
- an operator that is not a string gives `None` from `Lower`.

The loop's 5000-iteration ceiling is the constant `Fuel`.

The model follows the code as written, including its quirks, and states them in lemmas:

- `E'` is selected by `=` but pushes `&&`.
- `L'` on `-` pushes a `+` terminal.
- `@IF_FJ` uses the stale `res` register as the jump's result.
- `@FOR_FJ` peeks at the semantic stack instead of popping, and it runs before the loop
  condition is parsed, so its jump tests whatever the initialiser left on top, and the
  condition's result stays on the stack.
- `@WHILE_RJ` reads the while-RJ stack, so the first loop's back jump targets `-1`.
- The backward jumps of `while` and `for` leave their target in `res`, where a later `@IF_FJ` picks it up.
- A `for` closes with its backward jump before its backpatch, the reverse of a `while`,
  so its false jump targets one quadruple further on.
- `@ASS_P` always consumes a temporary name.
- `newVariable` is the same code as `newTempVariable`.
- The grammar's `FJ`/`RJ` quadruples reach the lowering's `F`/`R` loop cases, not its `J` case.
- `==` lowers like `=`.

Modules:

| file | module | contents |
|---|---|---|
| stacks.dfy | `Stacks` | `Option`, `Top`, `Pop`, `Behead` (JavaScript `top`/`pop`/`splice(0, 1)`) |
| decimal.dfy | `Decimal` | `Number#toString` on integers, with a digit parser and the round trip |
| tokens.dfy | `Tokens` | words, word kinds, and the lexer's classification predicates as parameters |
| quadruples.dfy | `Quadruples` | JavaScript values, quadruples, rendering |
| symbols.dfy | `Symbols` | non-terminals, action markers, stack symbols and their names |
| catalog.dfy | `Catalog` | the production catalog, the terminal-matching rule, the error kinds |
| semantics.dfy | `Semantics` | the semantic-action interpreter |
| driver.dfy | `Driver` | `forward`, `newError`, the three symbol handlers, the loop, the run invariants |
| assembly.dfy | `Assembly` | the lowering to assembly text |

## Model

| member | source | states |
|---|---|---|
| Stacks.Top | build/js/grammar.js:602 | the top is present exactly for a non-empty stack and is its last element |
| Stacks.Pop | build/js/grammar.js:104 | popping drops the last element; an empty stack stays empty |
| Stacks.Behead | build/js/grammar.js:105 | `splice(0, 1)` drops the first word; an empty list stays empty |
| Decimal.NatToString | build/js/grammar.js:87 | a count renders as a non-empty digit string without a leading zero |
| Decimal.IntToString | build/js/grammar.js:555 | the rendering (the `toString()` of the backward-jump targets, here and at line 569) reads back as the value: digits of the value when non-negative, otherwise `-` followed by digits whose value negated is the value |
| Decimal.NatToStringRoundTrip | build/js/grammar.js:126 | reading back the digits of a rendered count gives the count |
| Decimal.NatToStringInjective | build/js/grammar.js:87 | distinct counts render differently |
| Symbols.DollarNamed | build/js/grammar.js:604 | a symbol is named `$` exactly when it is the end marker or the terminal `$` |
| Catalog.Expand | build/js/grammar.js:162-455 | no alternative pushes the end marker; every non-terminal with an empty alternative always expands and never records an error |
| Catalog.ExpandDeclaration | build/js/grammar.js:163-333 | for S, A, C, X, Y, Z, Z', U, U', R, P (and O, Q): the pushes never contain the end marker; the nullable ones never reject |
| Catalog.ExpandStatement | build/js/grammar.js:182-250 | B always expands without the end marker; the expansion is empty exactly when the word is none of `printf`, `scanf`, `if`, `while`, `for`, and otherwise its top is the keyword's terminal, or the `printf`/`scanf` action that consumes the keyword |
| Catalog.ExpandCondition | build/js/grammar.js:334-387 | E', H' always expand; no alternative pushes the end marker |
| Catalog.ExpandArithmetic | build/js/grammar.js:388-438 | L', T', F always expand; no alternative pushes the end marker |
| Catalog.ForFalseJumpPrecedesCondition | build/js/grammar.js:226-244 | the `for` production places `@FOR_FJ` above G, so the false jump runs before the loop condition is parsed |
| Catalog.PredictedTerminalMatches | build/js/grammar.js:162-455 | apart from `E'` and `L'`, a terminal an expansion leaves on top matches the very word that selected the alternative |
| Catalog.AndSelectedByAssign | build/js/grammar.js:342-349 | `E'` on `=` pushes `E &&`, and a non-constant `=` then fails to match `&&` |
| Catalog.MinusExpectsPlus | build/js/grammar.js:396-405 | `L'` on `-` pushes `@SUB L +`, and a non-constant `-` then fails to match `+` |
| Semantics.NewTemp | build/js/grammar.js:86-99 | the next name is `T` plus the count issued so far; it is appended to the list, and it is new whenever the list is `T0 … Tn-1` |
| Semantics.TempNameInjective | build/js/grammar.js:87 | two temporaries with the same name have the same index |
| Semantics.TempNamesDistinct | build/js/grammar.js:86-99 | the names in a `T0, T1, …` list are pairwise distinct |
| Semantics.BackPatch | build/js/grammar.js:124-127 | succeeds exactly for a 1-based position inside the list; rewrites that quadruple's result to the decimal target and nothing else |
| Semantics.BackPatchIdempotent | build/js/grammar.js:124-127 | patching twice equals patching once, and the patched result parses back to the target |
| Semantics.EmitJump | build/js/grammar.js:533-537 | appends the jump and pushes the new list length onto its stack alone; clears `op`; keeps pending positions in range |
| Semantics.Resolve | build/js/grammar.js:538-539 | succeeds exactly when the stack's top names a quadruple (with positions in range: exactly when the stack is non-empty); pops it and patches that quadruple; every register (`op`, `arg1`, `arg2`, `res`), the semantic stack, the temporaries, `for_op` and the other pending stacks stay as they were |
| Semantics.Combine | build/js/grammar.js:471-491 | with `+`/`-` (or `*`/`/`) staged, the two top operands are replaced by a fresh temporary and `(op, left, right, temp)` is recorded; on a stack of fewer than two entries the missing operands are `undefined` and the stack becomes just the temporary; otherwise nothing changes |
| Semantics.Assign | build/js/grammar.js:517-522 | pops value then target, records `(=, value, /, target)`, clears `op`; on a short stack the missing operands are `undefined` |
| Semantics.CompareOperands | build/js/grammar.js:523-530 | right operand, operator and left operand leave; one fresh temporary arrives; the quadruple carries the popped operator; on a stack of fewer than three entries the stack becomes just the temporary and each missing entry is `undefined` in the quadruple |
| Semantics.PrintOperand | build/js/grammar.js:499-507 | a fresh name is always issued; a non-identifier is declared `(D, text, /, name)` and printed through the name, an identifier is printed directly |
| Semantics.SelfStep | build/js/grammar.js:508-513 | with a pending `++`/`--`, pops one operand and records `(op, x, /, x)` with the latest pending operator, leaving `x` in both `arg1` and `res` (`undefined` on an empty stack); otherwise nothing changes |
| Semantics.Translate | build/js/grammar.js:463-575 | the `actionSymbol` dispatch; it carries no contract of its own, and its contract is stated by `TranslateAsPatch`, `TranslateFailsOnlyOnEmptyPatch`, `TranslatePreserves`, `SemanticStackDiscipline`, `EmitterRecordsPosition`, `PatchRewritesOnlyResult`, `WhileFalseJumpPops`, `ForFalseJumpPeeks` and the jump lemmas below |
| Semantics.TranslateAsPatch | build/js/grammar.js:538-574 | each backpatch marker resolves its own pending stack, at the current count for `if` and the count plus one for `while` and `for` |
| Semantics.TranslateFailsOnlyOnEmptyPatch | build/js/grammar.js:538-574 | with positions in range, an action fails exactly when it is a backpatch whose pending stack is empty |
| Semantics.TranslatePreserves | build/js/grammar.js:463-575 | every action extends the temporaries by at most one name, keeps them `T0, T1, …`, keeps pending positions in range and never shrinks the quadruple list |
| Semantics.SemanticStackDiscipline | build/js/grammar.js:463-575 | with three or more entries, each action changes the semantic stack depth by its fixed amount (for example −1 for `+`/`-` combining, −2 for assignment, −2 for comparison) |
| Semantics.EmitterRecordsPosition | build/js/grammar.js:533-571 | every jump emitter appends exactly one quadruple, keeps the earlier ones, and records its 1-based position on its own stack |
| Semantics.PatchRewritesOnlyResult | build/js/grammar.js:538-574 | a backpatch keeps the list length, changes only the named quadruple's result, and writes the count for `if` and the count plus one for loops |
| Semantics.IfJumpKeepsStaleResult | build/js/grammar.js:532-537 | the `if` false jump pops its condition as the jump's `arg1` but takes its result from the `res` register as the previous action left it, and records its 1-based position |
| Semantics.FirstWhileJumpTargetsMinusOne | build/js/grammar.js:552-558 | with nothing on the while-RJ stack, the backward jump is `(RJ, /, /, -1)` |
| Semantics.WhileFalseJumpPops | build/js/grammar.js:547-552 | the `while` false jump pops its condition (`undefined` on an empty stack) into `arg1` and the jump's operand, and records its 1-based position |
| Semantics.ForFalseJumpPeeks | build/js/grammar.js:561-566 | the `for` false jump only peeks: its operand and `arg1` are the semantic stack's top (`null` when empty), the stack is unchanged, and its position is recorded |
| Semantics.WhileJumpSetsResult | build/js/grammar.js:553-558 | the `while` backward jump leaves its target (the while-RJ top minus one, in decimal) in the `res` register and writes the same value as the jump's result |
| Semantics.ForJumpSetsResult | build/js/grammar.js:567-572 | the `for` backward jump leaves its target (the for-FJ top minus one, in decimal) in the `res` register and writes the same value as the jump's result |
| Semantics.WhileCloseTargets | build/js/grammar.js:552-560 | closing a `while` makes its false jump target the position just past the backward jump |
| Semantics.IfElseTargets | build/js/grammar.js:538-544 | closing a then-branch makes its false jump target the 0-based index of the else jump |
| Semantics.ForBackJumpAppends | build/js/grammar.js:567-572 | the `for` backward jump appends one `RJ` quadruple, keeps the earlier ones and leaves the for-FJ stack alone |
| Semantics.ForCloseTargets | build/js/grammar.js:566-574 | closing a `for` emits the backward jump before the backpatch (the production at lines 227-229 puts `FOR_RJ` above `FOR_BACKPATCH_FJ`), so the false jump targets one past the position just after the backward jump, unlike `while` |
| Driver.Forward | build/js/grammar.js:103-106 | pops the analysis stack and drops the first word; nothing else changes |
| Driver.NewError | build/js/grammar.js:113-117 | pops one symbol, drops one word, appends one error with the word's line and text, and raises the flag |
| Driver.TerminalSymbol | build/js/grammar.js:134-142 | top and word are always consumed; the error list is unchanged exactly when the word matches the terminal, else a mismatch error is appended |
| Driver.NonTerminalSymbol | build/js/grammar.js:149-161 | the top is replaced by the right-hand side in push order (its last symbol becomes the top) and no word is consumed; a rejected lookahead takes the error path |
| Driver.ActionSymbol | build/js/grammar.js:463-577 | pops exactly the marker, drops a word only for `printf`/`scanf`, fails exactly when the action throws, and leaves the errors alone |
| Driver.Step | build/js/grammar.js:602-616 | accepts on `$`/`$`, pops a stray end marker with the flag raised, fails only on an action, adds at most one error and consumes at most one word, and shrinks the analysis stack by one except on a successful expansion |
| Driver.Drive | build/js/grammar.js:596-617 | runs at most 5000 iterations, one trace entry each; errors are only appended and the flag never falls |
| Driver.Analyse | build/js/grammar.js:582-618 | with a lexical error or no words nothing runs; otherwise between 1 and 5000 iterations run, one trace entry each |
| Driver.BottomedPop | build/js/grammar.js:104 | popping keeps the end marker at the bottom and only there |
| Driver.BottomedPush | build/js/grammar.js:155-160 | replacing a non-bottom top by a production keeps the end marker at the bottom and only there |
| Driver.EndOnTopIsAlone | build/js/grammar.js:592-593 | when the end marker is on top, it is the only symbol |
| Driver.StepKeepsInvariant | build/js/grammar.js:602-616 | each successful iteration keeps the bottom marker, the `T0, T1, …` namer and in-range pending positions |
| Driver.StepThrowsOnlyOnEmptyPatch | build/js/grammar.js:602-616 | an iteration throws exactly when the top is a backpatch marker whose pending stack is empty |
| Driver.DriveKeepsInvariant | build/js/grammar.js:596-617 | the whole remaining run keeps the invariant, whether it halts or throws |
| Driver.AnalyseIssuesDistinctTemps | build/js/grammar.js:582-618 | after any run the temporaries are `T0, T1, …` in order, pairwise distinct, and every pending position names a quadruple |
| Driver.AcceptEndsTheLoop | build/js/grammar.js:604-605 | `$` on top against the word `$` empties the stack and ends the loop after that iteration |
| Driver.ExhaustedInputStops | build/js/grammar.js:598-601 | an empty word list raises the flag and ends the loop, leaving the stack alone |
| Assembly.DeclIndices | build/js/assembly.js:27-31 | lists, in increasing order, exactly the positions of the `D` quadruples |
| Assembly.DataSection | build/js/assembly.js:27-31 | the data-section entries; it carries no contract of its own, and `DataSectionFollowsDecls` with `DeclIndices` states what it holds |
| Assembly.DataSectionFollowsDecls | build/js/assembly.js:27-31 | the data section has one entry per declaration, in list order, each `result:\n    .string:arg1\n` |
| Assembly.Indent | build/js/assembly.js:18 | `nowSpace` is `now − 1` spaces |
| Assembly.Emit | build/js/assembly.js:36-119 | the per-quadruple switch on the operator's first character; it carries no contract of its own, and its contract is stated by `LinesIndented`, `PrintLowering`, `ArithmeticLowering`, `GrammarJumpsAreLoopMarkers`, `EqualityLowersAsAssignment`, `UnmatchedEmitsNothing` and `ComparisonJumpTarget` |
| Assembly.Advance | build/js/assembly.js:105-115 | the counter and flag update of the `F` case; it carries no contract of its own, and `AdvanceAt`, `GrammarJumpsAreLoopMarkers` and `IndentNeverShrinks` state it |
| Assembly.Body | build/js/assembly.js:34-123 | the stateful pass over the quadruples; it carries no contract of its own, and `BodyMatchesPerQuad` ties it to the closed form that the lowering lemmas describe |
| Assembly.AdvanceAt | build/js/assembly.js:105-115 | the counter and flag after quadruple k are those in force at k + 1 |
| Assembly.BodyMatchesPerQuad | build/js/assembly.js:34-123 | the stateful pass equals lowering each quadruple with `4 + 4 × (earlier F count)` and "some earlier F" as its counter and flag |
| Assembly.Lower | build/js/assembly.js:24-124 | fails exactly when some operator is not a string; otherwise gives the data header, the declaration entries, the three text-header lines, then each quadruple's lines in order |
| Assembly.LinesIndented | build/js/assembly.js:34-119 | every line starts with the current indentation, except `end_loop:`, which sits one level further out |
| Assembly.PrintLowering | build/js/assembly.js:97-104 | a `P` quadruple lowers to five lines; only the third depends on the quadruple (it moves `arg1`), and none depends on the loop flag |
| Assembly.ArithmeticLowering | build/js/assembly.js:41-57 | `+` lowers to mov-then-add, `++` to inc, `--` to dec |
| Assembly.GrammarJumpsAreLoopMarkers | build/js/assembly.js:105-115 | `FJ` lowers to `start_loop:` and enters the loop; `RJ` lowers to `jmp start_loop` plus `end_loop:` and keeps the counter |
| Assembly.EqualityLowersAsAssignment | build/js/assembly.js:36-40 | `==` lowers exactly like `=` |
| Assembly.UnmatchedEmitsNothing | build/js/assembly.js:116-118 | an operator starting with no handled character emits nothing and leaves counter and flag alone |
| Assembly.IndentNeverShrinks | build/js/assembly.js:105-115 | the counter in force never decreases along the list |
| Assembly.ComparisonJumpTarget | build/js/assembly.js:74-96 | a comparison jumps to `end_loop` exactly when an `F` quadruple came earlier, otherwise to `$result` |

## Left out

- The trace's display strings (`GrammarAnalyseResult`) are left out. The trace keeps
  the raw snapshot of the analysis stack, the words and the semantic stack, and the
  concatenation into strings is not modelled.
- `console.log` in `backPatch` is left out. It has no effect on the state.
- The word list is taken by value. The parser shares the lexer's own array (`this.wordList = lexical.wordList`) and consumes it in place with `splice`, so the lexer's list shrinks as words are consumed; the model does not track that aliasing.
- The `dataList` aliases are left out. Each is a second reference to the same array, kept for front-end rendering.
- `Word`, `AnalyseNode`, `Quadruple`, `Error` and the lexer are not part of this model.
  - The lexer's predicates (`isConst`, `isDataType`, `isNotStartKey`,
    `isComparisonOperator`, `isSelfOperator`) are parameters.
  - Word kinds are an enumeration.
  - Plain strings in a production array are taken to become terminal nodes.
  - The `grammarObject` entries are taken to be the non-terminals and action markers
    with the names the switch and `actionSymbol` test.
- The loop's final fall-through cannot arise: it is the case where a top that is none
  of terminal, non-terminal or action is left in place. Every stack symbol is one of
  the four kinds.
- The `JSON.parse(JSON.stringify(…))` deep copy in the lowering is left out. It is the
  identity on quadruples of strings, `null` and `undefined`.
- Error messages are kept as an enumeration, one constructor per distinct message
  text, not as the message strings.
- The lowered code's meaning as x86 is left out. The lowering is modelled as text only.
- `Number#toString` is modelled for integers only. Positions and counts are the only
  numbers rendered.
- No fuel bound is added beyond the source's own 5000-iteration ceiling. Runs that would go on
  past it are cut exactly as the source cuts them, so no behaviour is lost.
