# pegs in Dafny

A model of the core of `pegs`, a small embeddable expression language written in
Rust on top of the `nom` parser-combinator library, with proofs about it.

The model covers five parts of the repository.

- **The `src/` core.** The PEG parser turns text into statements and expressions:
  `Parser` gives every `parse_*` function as a function over an input string and a
  position, and `ParserFacts` proves what its ordered choices imply. `Scopes.Scope`
  is the class of the variable and function tables. Evaluation is described by
  specification functions (`Semantics`), and the imperative evaluator
  (`Evaluator`) and the two-pass program runner (`Runner`) are proved to agree
  with them. Also modelled: the `math` library (`Libraries`), the `ta` host object
  (`Objects`), error classification and display (`Errors`), shebang stripping
  (`Files`), the `Engine` constructors and `register_fn` (`Runner.Engine`), and the
  alternative method-call parser of `ttt.rs` (`Ttt`).
- **The `genv/src/ast` pipeline.** This is a tokenizer (`GenvLexer`), a
  token parser with an explicit cursor (`GenvParser`), an `i32` evaluator with a
  variable table (`GenvEngine`) and the `VM` that chains them (`GenvVm`). Its unit
  tests are restated as lemmas in `GenvExamples`.
- **The single-file copies of the core.**
  - `genv/src/999.rs` (`Copy999`) reuses the `src/` semantics with a smaller
    expression grammar.
  - `genv/src/main.rs` (`GenvMain`, `GenvMainContext`, `GenvMainFacts`) has atoms
    that evaluate to themselves, integer-only arithmetic, structural `==`, builtin
    libraries selected by name prefix, and an `Assignment` that needs a prior
    binding.
  - `genv/src/111.rs` and `genv/src/vm/*.rs` (`DeclarationOnly`,
    `DeclarationFacts`) have declaration-only statements and functions that never
    read their arguments. Their `Context` (variable and function tables with
    set/get, `genv/src/vm/vm.rs:12-33`, `genv/src/111.rs:217-240`) is the same as
    `Scopes.Scope` and is modelled by it.
- **`genv/src/ok.rs`** (`OkParser`): the atom parser whose `double` alternative is
  guarded by "the rest of the input contains a `.`".
- **`examples/separated.rs`** (`Separated`): comma-separated `i32` lists, with a
  round-trip proof.

All the parsers are modelled in one way. A parser takes `(input, pos)` and returns
`Done(value, pos')`, `Fail` or `Cut`:

- `Done(value, pos')` means success, with the rest of the input being `input[pos'..]`.
- `Fail` is nom's recoverable `Err::Error`, after which `alt` tries its next
  alternative.
- `Cut` is nom's `Err::Failure`. The only place it comes from is the `cut(digit1)`
  after an exponent marker inside `double`.

The `Parser.Dialect` parameter says which copy of the grammar is meant:

- `Src` is `src/parser/parser.rs`, the full grammar;
- `Copy999` is `genv/src/999.rs`, which has no import and no method call;
- `MainRs` is `genv/src/main.rs`, which also has no function literal;
- `Decl` is `genv/src/111.rs` and `genv/src/vm/parser.rs`, with declarations
  only and block bodies.

Every interpreter that works on a mutable table is a class or a method over a
class, proved equal to a specification function of the old tables.
Rust's `i64`/`i32` arithmetic is written out: overflow and division by zero are
`Panic` outcomes, as in a debug build, and `/` truncates toward zero
(`Integers.TruncDiv`).

## Model

| member | source | states |
|---|---|---|
| `Parser.ParseIdentifier` | src/parser/parser.rs:20-22 | succeeds exactly when the next character is an ASCII letter; the name is the longest run of letters (no digits, no `_`) and is what was consumed |
| `Parser.SkipSeparator` | src/parser/parser.rs:33-34 | blanks, `,`, blanks (`multispace0`, or `space0` for method calls): present exactly when a comma follows a run of blanks; the end lies after the longest run of blanks behind that comma |
| `Parser.ParseString` | src/parser/parser.rs:142-145 | never cuts; succeeds exactly when a `"` is followed later by another `"`; the text is what lies between the first two quotes, contains no `"`, and the end is after the closing quote |
| `Parser.ParseBoolean` | src/parser/parser.rs:147-152 | succeeds exactly when the input continues with `true` or `false` (no word boundary is needed), giving that boolean and consuming 4 or 5 characters |
| `Parser.ParseDouble` | src/parser/parser.rs:154-156 | succeeds, fails or cuts exactly as nom's `double` recogniser does, and its value is the literal text it consumed |
| `Parser.ParseInteger` | src/parser/parser.rs:158-160 | succeeds exactly when nom's `i64` does, with its value and end position |
| `Parser.ParseVariable` | src/parser/parser.rs:162-164 | succeeds exactly when an identifier does, and the variable's name is the identifier |
| `Parser.ParseAtom` | src/parser/parser.rs:178-187 | the ordered choice boolean, double, integer, string, variable, wrapped as an `Atom` expression with the same outcome and end position |
| `Parser.ParseBinaryOperator` | src/parser/parser.rs:189-198 | succeeds exactly on one of `+ - * /` (one character) or `==`, `!=` (two characters) |
| `Parser.ParseBinaryOperation` | src/parser/parser.rs:200-211 | every success is an atom, `multispace0`, an operator, `multispace0`, an atom: the left atom, the operator and the right atom (with its end) are what those parsers give at those positions |
| `Parser.ParseExpressionList` | src/parser/parser.rs:217-220 | `separated_list0` of expressions: a success ends inside the input, never before where it started |
| `Parser.ParseExpressionListTail` | src/parser/parser.rs:217-220 | the rest of such a list after its first element: a success ends inside the input |
| `Parser.ParseDelimitedList` | src/parser/parser.rs:215-222 | succeeds exactly when the opening character, a list and the closing character follow one another; the items are the list and the end is just after the closing character |
| `Parser.ParseIdentifierList` | src/parser/parser.rs:88-91 | the identifier list of a tuple assignment never fails and ends inside the input |
| `Parser.ParseIdentifierListTail` | src/parser/parser.rs:88-91 | the rest of that list after its first name never fails and ends inside the input |
| `Parser.ParseParameter` | src/parser/parser.rs:24-28 | fails exactly when no identifier starts here; the parameter is named by that identifier (its `=` default value: `ParserFacts.ParameterParts`) |
| `Parser.ParseParameterItems` | src/parser/parser.rs:33-36 | the parameters between the parentheses: a success ends inside the input |
| `Parser.ParseParameterItemsTail` | src/parser/parser.rs:33-36 | the parameters after the first one: a success ends inside the input |
| `Parser.ParseParameterList` | src/parser/parser.rs:30-39 | a parenthesised parameter list: a success consumes input |
| `Parser.SkipArrow` | src/parser/parser.rs:56 | `space0 "=>" space0`: present exactly when `=>` follows a run of spaces; the end lies after the longest run of spaces behind the arrow |
| `Parser.ParseBlock` | src/parser/parser.rs:41-46 | statements each after `multispace0`, then a return expression: a success consumes input |
| `Parser.ParseSingleLineBody` | src/parser/parser.rs:48-51 | succeeds and cuts exactly when an expression does; the block has no statements and that expression as its return expression, with the same end |
| `Parser.ParseFunctionBody` | src/parser/parser.rs:53-65 | the single-line form tried before the block form: a success consumes input |
| `Parser.ParseFunction` | src/parser/parser.rs:135-140 | a success is named by the identifier at the start; its parameters are the parameter list after the name, and its body, with the end, is the function body after that list |
| `Parser.ParseTuple` | src/parser/parser.rs:166-176 | succeeds exactly when the `[`...`]` list does; the tuple's items and end are that list's |
| `Parser.ParseFunctionCall` | src/parser/parser.rs:213-224 | a success is a call of the identifier at the start; its arguments and end are the parenthesised list right after the name |
| `Parser.ParseImport` | src/parser/parser.rs:227-232 | never cuts; succeeds exactly when `import`, spaces and an identifier follow; the result is the method call `import.<that identifier>()` with no arguments, ending after the identifier |
| `Parser.ParseMethodCall` | src/parser/parser.rs:234-247 | a success is a method call on the identifier at the start (member and arguments: `ParserFacts.MethodCallParts`) |
| `Parser.ParseFunctionLiteral` | src/parser/parser.rs:251 | succeeds and cuts exactly when `parse_function` does, and is the function it parsed, with the same end |
| `Parser.ParseExpression` | src/parser/parser.rs:249-259 | the seven-way ordered choice, gated by dialect: a success consumes input, so every recursive call works on a shorter rest |
| `Parser.ParseVariableDeclaration` | src/parser/parser.rs:67-74 | a success is a `VariableDeclaration` and consumes input |
| `Parser.ParseAssignment` | src/parser/parser.rs:76-83 | a success is an `Assignment` and consumes input |
| `Parser.ParseTupleAssignment` | src/parser/parser.rs:85-99 | a success starts with `[`; its names are the identifier list after it, which is followed by `]` (the `=` and the expression: `ParserFacts.TupleAssignmentParts`) |
| `Parser.ParseFunctionDefinition` | src/parser/parser.rs:102-105 | succeeds and cuts exactly when `parse_function` does, and defines the function it parsed, with the same end |
| `Parser.ParseFunctionCallStatement` | src/parser/parser.rs:108-119 | a success calls the identifier at the start; its arguments and end are the parenthesised list right after the name |
| `Parser.ParseStatement` | src/parser/parser.rs:124-133 | the five-way ordered choice of statements: a success consumes input |
| `Parser.ParseStatements` | src/context/runast.rs:13-14 | `many0(preceded(multispace0, parse_statement))`: a success ends inside the input |
| `Text.RestIsSuffix` | src/parser/parser.rs:20-22 | the rest left by a parse is a suffix of the text it was given |
| `Text.Take1` | src/parser/parser.rs:21 | nom's `alpha1`/`digit1`: the longest non-empty run of the class, failing exactly when there is none |
| `Text.Skip0` | src/parser/parser.rs:43 | nom's `space0`/`multispace0`: the longest (possibly empty) run of the class |
| `Text.Tag` | src/parser/parser.rs:228 | nom's `tag`: succeeds exactly when the input continues with the text, consuming it |
| `Text.TagNoCase` | src/parser/parser.rs:155 | the case-insensitive tag that `double` uses for `nan`, `inf` and `infinity` |
| `Text.TakeUntil` | src/parser/parser.rs:143 | nom's `take_until`: succeeds exactly when the character occurs, and stops before its first occurrence |
| `Text.Find` | src/api/files.rs:35 | the first index of a character, or none when it does not occur |
| `Text.I64` | src/parser/parser.rs:158-160 | nom's `i64`: an optional sign and digits whose value fits in 64 bits; it never cuts |
| `Text.RecognizeDouble` | src/parser/parser.rs:154-156 | nom's float recogniser (sign, digits, optional fraction, optional exponent, or `nan`/`inf`/`infinity`): the value is the text consumed |
| `Text.I64ShadowedByDouble` | src/parser/parser.rs:180-182 | wherever `i64` succeeds, `double` does not fail, so the integer alternative of `parse_atom` is never reached |
| `ParserFacts.ExpressionRestIsSuffix` | src/parser/parser.rs:249-259 | a parsed expression consumes at least one character and leaves a suffix of its input |
| `ParserFacts.DeclarationAndAssignmentAgree` | src/parser/parser.rs:67-83 | declaration and assignment succeed (and cut) on exactly the same inputs |
| `ParserFacts.StatementIsNeverAssignment` | src/parser/parser.rs:124-133 | `parse_statement` never returns an `Assignment`, in any dialect |
| `ParserFacts.AtomIsNeverInteger` | src/parser/parser.rs:178-187 | `parse_atom` never returns an `Integer`: digits come out as a `Double` |
| `ParserFacts.ExpressionRejectsLeadingBlank` | src/parser/parser.rs:249-259 | an expression cannot start with white space |
| `ParserFacts.ArrowThenNewlineIsBlock` | src/parser/parser.rs:53-65 | after `=>` and a line break, the body is the block form followed by trailing `multispace0` |
| `ParserFacts.ChainedOperatorStops` | src/parser/parser.rs:200-211 | `a + b + c` parses as `a + b` and leaves ` + c` unconsumed |
| `ParserFacts.BinaryOperationBeforeTuple` | src/parser/parser.rs:249-253 | when no function literal matches, a binary operation wins over every later alternative |
| `ParserFacts.FunctionLiteralNeedsParameters` | src/parser/parser.rs:135-140 | a name not followed by `(` is no function literal |
| `ParserFacts.VariableAtom` | src/parser/parser.rs:178-187 | a run of letters that starts with none of `true`, `false`, `nan`, `inf` is a variable atom |
| `ParserFacts.PlainVariableAtom` | src/parser/parser.rs:162-164 | a run of letters that starts with none of `t`, `f`, `n`, `i` is a variable atom |
| `ParserFacts.BooleanNeedsNoBoundary` | src/parser/parser.rs:147-152 | `truex` is the boolean `true` with `x` left over |
| `ParserFacts.NanNeedsNoBoundary` | src/parser/parser.rs:154-156 | `nanny` is the double `nan` with `ny` left over |
| `ParserFacts.ImportNeedsNoBoundary` | src/parser/parser.rs:227-232 | `important` parses as `import ant` |
| `ParserFacts.ImportantIsAVariable` | src/parser/parser.rs:178-187 | as an atom, `important` is the variable `important` |
| `ParserFacts.OperatorNeeded` | src/parser/parser.rs:200-211 | an atom that ends the input is not a binary operation |
| `ParserFacts.ImportBeforeMethodCall` | src/parser/parser.rs:249-256 | when literal and operation fail, an import wins over method and function calls |
| `ParserFacts.ParameterParts` | src/parser/parser.rs:24-28 | a parameter has a default value exactly when `=` and an expression follow its name; the default is that expression, and without one the parameter ends after the name |
| `ParserFacts.DeclarationParts` | src/parser/parser.rs:67-74 | every declaration is an identifier, `space0`, `=`, `space0`, an expression: name, value and end come from those parsers |
| `ParserFacts.AssignmentParts` | src/parser/parser.rs:76-83 | every assignment has the same parts as a declaration |
| `ParserFacts.TupleAssignmentParts` | src/parser/parser.rs:85-99 | every tuple assignment is `[`, the identifier list, `]`, `space0`, `=`, `space0`, an expression: names, value and end come from those parsers |
| `ParserFacts.TupleAssignmentAt` | src/parser/parser.rs:85-99 | conversely, with `[`, the list, `]` and `=` in place, the tuple assignment succeeds, fails or cuts as the expression after `=` does, with those names |
| `ParserFacts.ImportAt` | src/parser/parser.rs:227-232 | `import`, spaces and an identifier `n` ending at `q` parse as `import.n()` ending at `q` |
| `ParserFacts.MethodCallParts` | src/parser/parser.rs:234-247 | every method call is receiver, `space0`, `.`, member, `space0`, a parenthesised `space0 "," space0` list: receiver, member, arguments and end come from those parsers |
| `ParserFacts.MethodCallAt` | src/parser/parser.rs:234-247 | conversely, with receiver, `.` and member in place, the method call succeeds, fails or cuts as the argument list does, with that receiver and member |
| `ParserFacts.ExpressionAlternatives` | src/parser/parser.rs:249-259 | every parsed expression is the result of one of the alternatives the dialect offers |
| `ParserFacts.StatementAlternatives` | src/parser/parser.rs:124-133 | every parsed statement is a declaration or, where the dialect has them, a tuple assignment, a definition or a call |
| `Scopes.Scope.constructor` | src/types/scope.rs:16-21 | a new scope has empty variable and function tables |
| `Scopes.Scope.SetVariable` | src/types/scope.rs:23-25 | the variable table gains or overwrites that one binding; the function table is unchanged |
| `Scopes.Scope.GetVariable` | src/types/scope.rs:27-29 | the binding of the name, and none exactly when it is unbound |
| `Scopes.Scope.ExtendVariables` | src/context/function.rs:13 | `extend` with the caller's table: every binding of it is added, over the existing ones |
| `Scopes.Scope.SetFunction` | src/types/scope.rs:31-33 | the function table gains or overwrites that one entry; the variable table is unchanged |
| `Scopes.Scope.GetFunction` | src/types/scope.rs:35-37 | the function of that name, and none exactly when there is none |
| `Scopes.Scope.Clone` | src/types/scope.rs:7-13 | a fresh scope with copies of both tables |
| `Scopes.CloneIsIndependent` | src/types/scope.rs:7-13 | a write to a clone is seen in the clone and not in the original |
| `Scopes.SetThenGet` | src/types/scope.rs:23-29 | after `set_variable(n, v)`, `get_variable(n)` is `v` and every other name reads as before |
| `Integers.TruncDiv` | src/context/expression.rs:27 | Rust's integer `/`: the remainder is smaller than the divisor and has the sign of the dividend |
| `Integers.TruncDivRemainder` | src/context/expression.rs:27 | the remainder of truncating division is the Euclidean remainder of the magnitudes, signed as the dividend |
| `Integers.QuotientFits` | src/context/expression.rs:27 | for `i64` operands and a non-zero divisor, the truncated quotient fits in `i64` except exactly for `i64::MIN / -1` |
| `Integers.QuotientFits32` | genv/src/ast/engine.rs:37 | for `i32` operands and a non-zero divisor, the truncated quotient fits in `i32` except exactly for `i32::MIN / -1` |
| `Semantics.Checked` | src/context/expression.rs:24-26 | an `i64` result is kept exactly when it fits in 64 bits; otherwise it is an overflow panic |
| `Semantics.IntOp` | src/context/expression.rs:22-29 | `+ - *` succeed exactly when the mathematical result fits in `i64`, and give it (else an overflow panic); `/` truncates, panics on a zero divisor and on `i64::MIN / -1` only; `==`/`!=` are `Unsupported binary operation` |
| `Semantics.Arith` | src/context/expression.rs:21-41 | two integers give `IntOp`; a result comes only from two integers or two doubles with `+ - * /`, and has their kind; `==`/`!=` on doubles is `Unsupported binary operation`; mixed or non-numeric operands are `Type error in binary operation` |
| `Semantics.Eval` | src/context/expression.rs:7-63 | a successful result is a value (never a variable atom); an unbound variable is `Undefined variable: <name>`; a method call is `Unsupported expression type`; the function table only grows; a tuple keeps its length |
| `Semantics.EvalSeqFrom` | src/context/expression.rs:47-52 | tuple elements in order: the values so far are kept, every new one is a value, and the length is the tuple's |
| `Semantics.CallFn` | src/context/function.rs:7-31 | an arity mismatch is `Argument count mismatch`; a successful result is a value |
| `Semantics.BindFrom` | src/context/function.rs:15-18 | binding the parameters one by one, each argument evaluated in the callee scope: a successful result is a value |
| `Semantics.RunDecls` | src/context/function.rs:20-30 | the body's declarations then the return expression: a successful result is a value |
| `Evaluator.Evaluate` | src/context/expression.rs:7-63 | evaluating on a scope gives `Semantics.Eval` of the old tables, leaves the variables unchanged, and leaves the function table `Eval` predicts |
| `Evaluator.EvaluateAll` | src/context/expression.rs:48-51 | the `collect` loop equals `Semantics.EvalSeqFrom` and leaves the variables unchanged |
| `Evaluator.Call` | src/context/function.rs:7-31 | `Function::call` on a fresh local scope equals `Semantics.CallFn` of the caller's variables |
| `EvalFacts.ValueEvaluatesToItself` | src/context/expression.rs:16 | every value evaluates to itself |
| `EvalFacts.ValuesEvaluateToThemselves` | src/context/expression.rs:47-52 | a tuple of values evaluates to itself |
| `EvalFacts.BoundVariableEvaluatesToValue` | src/context/expression.rs:9-11 | a variable bound to a value evaluates to that value |
| `EvalFacts.NeverReturnsVariable` | src/context/expression.rs:9-16 | `evaluate` never returns a variable atom |
| `EvalFacts.LiteralRegistersItself` | src/context/expression.rs:43-46 | a function literal is returned unchanged and registered under its own name |
| `EvalFacts.MissingFunctionEvaluatesNoArgument` | src/context/expression.rs:53-55 | calling a missing function fails with `Function '<name>' not found` before any argument is evaluated |
| `EvalFacts.DuplicateParameterLaterWins` | src/context/function.rs:15-18 | with a parameter name given twice, the later argument is the one bound |
| `EvalFacts.SelfCallIsNotFound` | src/context/function.rs:12 | the callee's function table starts empty, so a body calling its own function fails with not-found |
| `EvalFacts.OnlyDeclarationsRun` | src/context/function.rs:20-28 | statements other than declarations are skipped |
| `EvalFacts.DivisionTruncates` | src/context/expression.rs:27 | `-7 / 2` is `-3` |
| `EvalFacts.AdditionOverflowPanics` | src/context/expression.rs:24 | `i64::MAX + 1` panics |
| `EvalFacts.LeftFailureWins` | src/context/expression.rs:17-19 | when the left operand fails, the binary operation fails with it and the right operand is not evaluated |
| `EvalFacts.RightSeesLeftFunctions` | src/context/expression.rs:17-41 | after a left operand that succeeds, the right operand is evaluated on the function table the left one leaves, and its failure or the arithmetic of the two is the result |
| `EvalFacts.FoundFunctionCall` | src/context/expression.rs:53-59 | a call of a known function evaluates the arguments in order in the caller, then the call receives their values; an argument's failure is the result |
| `EvalFacts.FirstFailureStops` | src/context/expression.rs:47-52 | the first element that fails is the tuple's failure |
| `EvalFacts.ListFailureIsElementFailure` | src/context/expression.rs:47-52 | a tuple's failure is the failure of one of its elements, evaluated on a function table that contains the original one |
| `EvalFacts.MoreFuelSameEval` | src/context/expression.rs:7-63 | a result other than `OutOfFuel` stays the same with more fuel |
| `EvalFacts.MoreFuelSameCall` | src/context/function.rs:7-31 | likewise for a call |
| `Runner.BareVariables` | src/context/runast.rs:73-79 | the names of the arguments that are bare variables: a name is listed exactly when its variable is among the arguments |
| `Runner.Declare` | src/context/runast.rs:39-46 | declaration and assignment: on success the name is overwritten with the value; on failure the variables are unchanged |
| `Runner.Step` | src/context/runast.rs:38-88 | a failing statement binds nothing; a definition is skipped; a call of a missing function is `Function '<name>' not found`; a tuple assignment of a non-tuple is `Expected tuple expression`, of a tuple of the wrong length `Tuple assignment mismatch`, and otherwise binds the names positionally; a call whose argument or call fails is that failure with no variable bound; a call that returns binds its tuple result to the bare-variable arguments when the lengths agree, and otherwise changes no variable |
| `Runner.RegisterDefinitions` | src/context/runast.rs:25-33 | the first loop leaves the function table `RegisterFrom` predicts and the variables unchanged |
| `Runner.BindAll` | src/context/runast.rs:51-53 | the `zip` loop leaves `BindNames` of the old variables and the functions unchanged |
| `Runner.ExecuteStatement` | src/context/runast.rs:38-88 | one statement of the second pass leaves exactly the tables and failure `Step` predicts |
| `Runner.ExecuteAll` | src/context/runast.rs:120-172 | the second loop leaves the tables and the first failure `RunFrom` predicts |
| `Runner.RunAstScope` | src/context/runast.rs:95-177 | `run_ast_scope` returns and leaves in the caller's scope exactly what `RunScope` predicts |
| `Runner.Engine.constructor` | src/engine.rs:44-50 | `new()` has no scopes |
| `Runner.Engine.Raw` | src/engine.rs:53-55 | `new_raw()`, which is `RAW`, has no scopes |
| `Runner.Engine.Default` | src/engine.rs:29-31 | `default()` has no scopes |
| `Runner.Engine.RegisterFn` | src/engine.rs:58-63 | with no scope nothing changes; otherwise only the first scope's function table gains the function |
| `Runner.Engine.RunAst` | src/context/runast.rs:12-94 | `run_ast` equals running on a fresh scope; `self` plays no part |
| `RunnerFacts.RegisterFindsEveryDefinition` | src/context/runast.rs:25-33 | after the first pass, every defined name maps to its last definition |
| `RunnerFacts.RegisterKeeps` | src/context/runast.rs:25-33 | the first pass keeps any function that no definition overrides |
| `RunnerFacts.BindNamesPositional` | src/context/runast.rs:51-53 | with distinct names, each name is bound to the value at its position and other names keep their bindings |
| `RunnerFacts.FailureStopsTheRun` | src/context/runast.rs:120-172 | after a failing statement, later statements make no difference |
| `RunnerFacts.CallBeforeDefinition` | src/context/runast.rs:25-33 | a call may precede the definition it calls |
| `RunnerFacts.CallStatementRebinds` | src/context/runast.rs:64-87 | for every call statement whose function returns: no failure; a name that is no bare-variable argument keeps its value; with a tuple as long as the bare-variable arguments, each of them (at its last occurrence) holds the item at its position; otherwise no variable changes |
| `RunnerFacts.BindNamesKeeps` | src/context/runast.rs:51-53 | binding names in order leaves every other name as it was |
| `RunnerFacts.BindNamesLastWins` | src/context/runast.rs:51-53 | binding names in order leaves each name with the value at its last position |
| `RunnerFacts.SwapByRebinding` | src/context/runast.rs:64-87 | an instance of `CallStatementRebinds`: `swap(x, y)` returning `[y, x]` swaps `x` and `y` through the bare-variable rebinding |
| `RunnerFacts.EmptyProgramIsAnError` | src/context/runast.rs:101-103 | an empty program is `No statements parsed` and leaves the scope alone |
| `Libraries.CallMethod` | src/package/math.rs:10-24 | `abs` of a `Double` first argument succeeds with its absolute value, and only that; otherwise `Invalid argument for math.abs`; other names are `not found in math library` |
| `Libraries.ExtraArgumentsIgnored` | src/package/math.rs:15 | arguments after the first make no difference |
| `Libraries.AbsWithoutArgument` | src/package/math.rs:18 | `abs` with no argument is an invalid argument |
| `Libraries.AbsRejectsInteger` | src/package/math.rs:15-19 | `abs` of an `Integer` fails |
| `Objects.TA.constructor` | src/object/ta.rs:14-21 | `TA::new` registers exactly `change` (and not `cci`) |
| `Objects.Handle` | src/object/ta.rs:23-45 | the count is checked first (`Invalid number of arguments for ta.<name>`), then `(String, Integer)`; `change` returns the integer, `cci` its conversion to a double |
| `Objects.NewTaDispatch` | src/object/ta.rs:14-29 | a new `TA` answers only `change`, which returns the integer argument |
| `Errors.Display` | src/types/error.rs:40-46 | an `ErrorSystem` with an empty message shows only the inner error; otherwise the message, `: `, the inner error |
| `Errors.FromString` | src/types/error.rs:54-58 | a string becomes an `ErrorRuntime` with that text in both fields |
| `Errors.FromStringIsCatchable` | src/types/error.rs:85-91 | an error made from a string is catchable and displays `<s>: <s>` |
| `Errors.DisplayForgetsKind` | src/types/error.rs:42-44 | with a non-empty message, system and runtime errors display alike, yet only the runtime one is catchable |
| `Files.WithoutShebang` | src/api/files.rs:33-41 | text without `#!` is unchanged; with it, everything before the first line break goes, or everything when there is none; the result is a suffix |
| `Files.ReadFile` | src/api/files.rs:14-44 | open and read failures become non-catchable system errors naming the path; read text loses its shebang line |
| `Files.StripTwiceIsStripOnce` | src/api/files.rs:33-41 | stripping twice is stripping once |
| `Ttt.ParseArgument` | src/parser/ttt.rs:11-20 | a digit run is an `Integer` (and panics when it does not fit in `i64`); otherwise optional spaces and a quoted, letters-only string |
| `Ttt.IntegerArgument` | src/parser/ttt.rs:13-15 | at a digit, the argument is the whole digit run read as an `Integer` when its value fits in `i64`, and a panic of `unwrap` otherwise |
| `Ttt.StringArgument` | src/parser/ttt.rs:16-19 | elsewhere, the argument is accepted exactly when optional spaces are followed by `"`, one or more letters and `"`, and it is then the string of those letters, ending after the closing quote |
| `Ttt.StringArgumentText` | src/parser/ttt.rs:16-19 | a string argument is spaces, `"`, its text, `"`: the text is exactly the characters between the quotes |
| `Ttt.ParseArguments` | src/parser/ttt.rs:29 | arguments separated by exactly `", "`; an empty list is accepted; the first argument comes first |
| `Ttt.ParseArgumentsTail` | src/parser/ttt.rs:29 | the arguments after the first keep those already read, in order; a panicking argument after `", "` is a panic |
| `Ttt.ArgumentsTailParts` | src/parser/ttt.rs:29 | every list the tail reads is its arguments, each after `", "`, and it stops where no `", "` and argument follow |
| `Ttt.ArgumentsTailAt` | src/parser/ttt.rs:29 | conversely, arguments each after `", "`, with no further `", "` and argument, are exactly what the tail reads |
| `Ttt.ArgumentsParts` | src/parser/ttt.rs:29 | a list is empty exactly when no first argument is read, and consumes nothing then; otherwise it is the first argument, the rest each after `", "`, stopping where no further one follows |
| `Ttt.ArgumentsAt` | src/parser/ttt.rs:29 | conversely, a first argument and the rest each after `", "`, with no further one, are exactly the list read |
| `Ttt.ParseMethodCall` | src/parser/ttt.rs:22-34 | letters, `.`, letters, `(`, with no white space, and ends at `)` |
| `Ttt.MethodCallParts` | src/parser/ttt.rs:22-34 | every call read is the receiver's letters, `.`, the member's letters, `(`, the argument list `separated_list0` reads there, and `)` |
| `Ttt.MethodCallAt` | src/parser/ttt.rs:22-34 | conversely, those parts give exactly the call of the member on the receiver with those arguments, ending after `)` |
| `Ttt.MethodCallPanics` | src/parser/ttt.rs:22-34 | a panicking argument list after the head makes the call panic |
| `Ttt.ChangeCallExample` | src/parser/ttt.rs:42-49 | `ta.change("Bull", 22)` is the call of `change` on `ta` with `"Bull"` and `22` |
| `Ttt.NoDigitsNoPanic` | src/parser/ttt.rs:13-15 | without digits the argument list cannot panic |
| `GenvLexer.Symbol` | genv/src/ast/lexer.rs:31-53 | each of `+ - * / = ;` is exactly one token |
| `GenvLexer.NextToken` | genv/src/ast/lexer.rs:55-57 | a token consumes input; a panic is only the `i32` overflow of `unwrap` |
| `GenvLexer.TokenMeaning` | genv/src/ast/lexer.rs:23-57 | after skipped white space: letters give an identifier, digits a number (or a panic past `i32::MAX`), a symbol its token, and anything else no match |
| `GenvLexer.TokenizeFrom` | genv/src/ast/lexer.rs:59-61 | `many0(token)` never fails; it keeps the tokens so far and ends inside the input |
| `GenvLexer.Tokenize` | genv/src/ast/lexer.rs:59-61 | tokenizing never fails without a panic and ends inside the input |
| `GenvLexer.StopsAtUnrecognised` | genv/src/ast/lexer.rs:59-61 | tokenizing stops exactly where no token can be read |
| `GenvLexer.AssignmentExample` | genv/src/ast/lexer_test.rs:7-17 | `a = 1 + 2;` is `[Identifier a, Assign, Number 1, Plus, Number 2, Semicolon]` |
| `GenvLexer.LetterThenDigit` | genv/src/ast/lexer.rs:56 | `a1` is `Identifier a`, `Number 1` |
| `GenvLexer.TokenizeStep` | genv/src/ast/lexer.rs:60 | tokenizing continues after each token |
| `GenvParser.BinopAt` | genv/src/ast/paser.rs:69-93 | an operator token gives its operator and nothing else does |
| `GenvParser.PrimaryAt` | genv/src/ast/paser.rs:47-67 | a success advances the cursor; the end of input and a wrong token give their two errors; a number token is that number and an identifier not followed by `=` is that variable, each consuming one token |
| `GenvParser.AssignmentAt` | genv/src/ast/paser.rs:54-61 | an identifier followed by `=` is the assignment of the expression after the `=`, ending where it ends, or that expression's error |
| `GenvParser.ExprAt` | genv/src/ast/paser.rs:37-45 | a success advances the cursor and stays inside the tokens |
| `GenvParser.ExprAtParts` | genv/src/ast/paser.rs:37-45 | a failing first primary is the result; a success is that primary alone when no operator follows, or the operation of it, the operator and a second primary |
| `GenvParser.ParseFrom` | genv/src/ast/paser.rs:19-35 | keeps the expressions already parsed; a parse error is passed on; an expression not followed by `;` is `Expected semicolon`; so a successful non-empty parse ends with `;` |
| `GenvParser.ParseBinop` | genv/src/ast/paser.rs:69-93 | the method's operator is `BinopAt` and the cursor moves exactly when there is one |
| `GenvParser.ParsePrimary` | genv/src/ast/paser.rs:47-67 | the method agrees with `PrimaryAt`, value, cursor and error |
| `GenvParser.ParseExpr` | genv/src/ast/paser.rs:37-45 | the method agrees with `ExprAt` |
| `GenvParser.ParseTokens` | genv/src/ast/paser.rs:19-35 | the `while` loop over the cursor equals `Parse` |
| `GenvFacts.EmptyParsesToNothing` | genv/src/ast/paser.rs:19-34 | no tokens parse to no expressions |
| `GenvFacts.ChainedOperatorsNeedSemicolon` | genv/src/ast/paser.rs:37-45 | two operators in a row give `Expected semicolon` |
| `GenvFacts.AssignmentTakesFirstOperator` | genv/src/ast/paser.rs:54-60 | `x = a + b + c;` is an assignment of `a + b` followed by `+ c` |
| `GenvFacts.VariableThenOperator` | genv/src/ast/paser.rs:61 | an identifier without `=` is a variable |
| `GenvFacts.LeftPanicWins` | genv/src/ast/engine.rs:30-31 | a panic in the left operand is the result of the operation, whatever the right operand |
| `GenvFacts.RightSeesLeftAssignments` | genv/src/ast/engine.rs:30-38 | for every operation whose left operand has a value: the right operand runs on the table the left one leaves, and its panic or the operator applied to the two values is the result |
| `GenvFacts.PrimaryRoundTrip` | genv/src/ast/paser.rs:47-67 | the tokens of a primary, read back, give that primary and end after its tokens |
| `GenvFacts.ExprRoundTrip` | genv/src/ast/paser.rs:37-67 | the tokens of an expression of at most one operator, read back, give that expression and end after its tokens |
| `GenvFacts.PrimaryIsPrinted` | genv/src/ast/paser.rs:47-67 | conversely, every primary read is spelled by exactly the tokens consumed |
| `GenvFacts.ExprIsPrinted` | genv/src/ast/paser.rs:37-45 | every expression read is spelled by exactly the tokens consumed |
| `GenvFacts.ExprAtIsReadingBack` | genv/src/ast/paser.rs:37-67 | `parse_expr` gives `e` ending at `q` exactly when the tokens up to `q` spell `e` and `e` reads back before the next token |
| `GenvFacts.ParseProgramTokens` | genv/src/ast/paser.rs:19-35 | a program written out as expressions each followed by `;` parses back to those expressions |
| `GenvFacts.LeftBeforeRight` | genv/src/ast/engine.rs:30-32 | the left operand is evaluated first, so an assignment in it is seen by the right |
| `GenvFacts.UnassignedDivisorPanics` | genv/src/ast/engine.rs:29-37 | an unassigned divisor reads as 0, and dividing by it panics |
| `GenvFacts.PanicStopsEvaluation` | genv/src/ast/engine.rs:16-20 | after a panic, later expressions make no difference |
| `GenvFacts.EvaluationComposes` | genv/src/ast/engine.rs:16-20 | evaluating a sequence then another is evaluating their concatenation |
| `GenvFacts.EvaluateShift` | genv/src/ast/engine.rs:16-20 | evaluation from a position of a concatenation is evaluation of its second part |
| `GenvEngine.Checked32` | genv/src/ast/engine.rs:34-36 | an `i32` result is kept exactly when it fits |
| `GenvEngine.Apply` | genv/src/ast/engine.rs:33-38 | `+ - *` give their result exactly when it fits in `i32`, and an overflow panic otherwise; `/` panics exactly on a zero divisor, panics with overflow exactly on `i32::MIN / -1`, and is otherwise the quotient truncated toward zero |
| `GenvEngine.Eval` | genv/src/ast/engine.rs:26-46 | a number is itself; a variable is its value, or 0 when unassigned, and changes nothing; an assignment's value is its right side's, stored over the table that side leaves; only assigned names change |
| `GenvEngine.EvaluateFrom` | genv/src/ast/engine.rs:16-20 | evaluating in order never loses a variable |
| `GenvEngine.Engine.constructor` | genv/src/ast/engine.rs:10-14 | a new engine has no variables |
| `GenvEngine.Engine.EvalExpr` | genv/src/ast/engine.rs:26-46 | the method's value and table are `Eval` of the old table |
| `GenvEngine.Engine.Evaluate` | genv/src/ast/engine.rs:16-20 | the `for` loop equals `EvaluateFrom` |
| `GenvEngine.Engine.GetVariable` | genv/src/ast/engine.rs:22-24 | the value of the name, none exactly when it is unassigned |
| `GenvVm.ExecuteScript` | genv/src/ast/vm.rs:16-20 | a lexer or parser panic leaves the variables alone; otherwise the parsed expressions are evaluated in order by `EvaluateFrom`; no variable is lost |
| `GenvVm.VM.constructor` | genv/src/ast/vm.rs:10-14 | a new VM wraps a fresh engine with no variables |
| `GenvVm.VM.Execute` | genv/src/ast/vm.rs:16-20 | tokenize, parse, evaluate equals `ExecuteScript` |
| `GenvVm.VM.GetVariable` | genv/src/ast/vm.rs:22-24 | delegates to the engine's table |
| `GenvExamples.ParserTest` | genv/src/ast/parser_test.rs:7-31 | the tokens of `a = 1; b = a + 2;` parse to the two assignments |
| `GenvExamples.EngineTest` | genv/src/ast/engine_test.rs:7-19 | evaluating them sets `a` to 1 and `b` to 3 |
| `GenvExamples.EngineTestRun` | genv/src/ast/engine_test.rs:7-19 | through the `Engine` methods, `get_variable("b")` is 3 |
| `GenvExamples.VmTest` | genv/src/ast/vm_test.rs:6-11 | executing `a = 1; b = a + 2;` sets `a` to 1 and `b` to 3 |
| `GenvExamples.VmTestRun` | genv/src/ast/vm_test.rs:6-11 | through the `VM` methods, `get_variable("b")` is 3 |
| `GenvExamples.ScriptTokenizes` | genv/src/ast/vm.rs:17 | `a = 1; b = a + 2;` tokenizes completely |
| `OkParser.GuardedDouble` | genv/src/ok.rs:74-84 | `double` is tried only when the rest of the input has a `.` somewhere; then it is nom's `double` |
| `OkParser.AtomValue` | genv/src/ok.rs:57-66 | with a `.` anywhere ahead it is the unguarded atom choice |
| `OkParser.AtomAt` | genv/src/ok.rs:57-66 | the atom expression has the outcome of the atom value |
| `OkParser.BinaryOperationAt` | genv/src/ok.rs:99-110 | a success is a binary operation of two atoms and starts with an atom |
| `OkParser.IntegerWithoutDot` | genv/src/ok.rs:74-89 | with no `.` ahead, digits are an `Integer` |
| `OkParser.OnlyTheGuardDiffers` | genv/src/ok.rs:74-84 | with a `.` ahead the atom equals the `src/` one; without, digits are an `Integer` where `src/` gives a `Double` (or cuts) |
| `OkParser.TrueIsBoolean` | genv/src/ok.rs:111-116 | `true` is `Boolean(true)` |
| `OkParser.SumOfIntegers` | genv/src/ok.rs:99-110 | `1 + 2` is the sum of two integers |
| `OkParser.DotLaterMakesADouble` | genv/src/ok.rs:74-80 | in `1 + 2.5`, the `1` is a `Double` because of the later `.` |
| `OkParser.MixedSumIsAllDouble` | genv/src/ok.rs:99-110 | `1 + 2.5` is the sum of two doubles |
| `Separated.ParseNumber` | examples/separated.rs:8-10 | a digit run whose value fits in `i32`, else a recoverable failure (no panic) |
| `Separated.ParseMore` | examples/separated.rs:13 | the numbers after `,` separators keep those already read |
| `Separated.ParseNumbers` | examples/separated.rs:12-14 | at least one number is needed, and it comes first |
| `Separated.DecimalValue` | examples/separated.rs:9 | the decimal text of a number reads back as that number |
| `Separated.JoinRoundTrip` | examples/separated.rs:12-14 | the separators and numbers of a joined list read back as the list |
| `Separated.ParseJoin` | examples/separated.rs:12-14 | parsing a comma-joined list of `i32`s gives the list and consumes everything |
| `Separated.EmptyIsAnError` | examples/separated.rs:13 | empty input fails |
| `Separated.OneToFive` | examples/separated.rs:17-23 | `1,2,3,4,5` is `[1, 2, 3, 4, 5]` with nothing left |
| `Separated.NoSpaceAfterComma` | examples/separated.rs:13 | in `1, 2` only `1` is read |
| `Separated.TooLargeFails` | examples/separated.rs:9 | `2147483648` fails |
| `Copy999.RunAst` | genv/src/999.rs:326-408 | an empty parse is `No statements parsed` |
| `Copy999.RunOnLocalContext` | genv/src/999.rs:326-408 | the two loops on a local context equal `RunAst` |
| `Copy999.NoMethodCalls` | genv/src/999.rs:287-295 | this grammar never builds a method call |
| `Copy999.ImportantIn999` | genv/src/999.rs:287-295 | `important` is a variable here |
| `Copy999.ImportantInSrc` | genv/src/999.rs:287-295 | and so parses differently from `src/` |
| `Copy999.DigitsAreADouble` | genv/src/999.rs:238-247 | a digit run is a `Double` |
| `Copy999.NumberArgument` | genv/src/999.rs:287-295 | a digit run before `,` or `)` is a `Double` expression |
| `Copy999.CallAt` | genv/src/999.rs:273-284 | a name then a parenthesised list is a call |
| `Copy999.CallWins` | genv/src/999.rs:287-295 | the call wins once literal, operation and tuple fail |
| `Copy999.MainCallParses` | genv/src/999.rs:501-524 | `fun(8, 5)` is a call with two `Double`s |
| `Copy999.MainBody` | genv/src/999.rs:472-497 | the body of `fun` on 8 and 5 is `[8 + 5, 8 - 5]` |
| `Copy999.MainCall` | genv/src/999.rs:472-497 | `fun(8, 5)` returns that tuple |
| `Copy999.MainDestructures` | genv/src/999.rs:501-524 | `[m, n] = fun(8, 5)` binds `m` and `n` to the sum and the difference |
| `GenvMain.MathCall` | genv/src/main.rs:300-313 | `math.abs` of an `Integer` (other than `i64::MIN`) is its absolute value; anything else is an invalid argument; other names are not found |
| `GenvMain.Prefix` | genv/src/main.rs:370 | the name up to its first `.` |
| `GenvMain.Operate` | genv/src/main.rs:350-361 | `==`/`!=` compare any two values structurally; the other operators on two integers are `Semantics.IntOp`; anything else is `Unsupported operation` |
| `GenvMain.ParameterNames` | genv/src/main.rs:397-399 | the parameter names in order |
| `GenvMain.Eval` | genv/src/main.rs:346-388 | atoms (variables too) and literals are themselves; a tuple keeps its length (calls: `GenvMainFacts.BuiltinCallDispatch`, `UserFunctionCall`, `FunctionNotFound`) |
| `GenvMain.EvalSeqFrom` | genv/src/main.rs:362-365 | tuple elements in order, keeping those already evaluated |
| `GenvMain.CallFn` | genv/src/main.rs:391-406 | an arity mismatch is `Incorrect number of arguments` (the clone and the body: `GenvMainFacts.CallSeesCallerTables`, `BodyFailureFailsCall`) |
| `GenvMain.Exec` | genv/src/main.rs:410-458 | a failing right-hand side fails the statement; a declaration binds its value; an assignment to an unbound name is `Variable '<name>' not found`; a tuple assignment of a non-tuple is `Right-hand side is not a tuple`, of the wrong length `Tuple lengths do not match`, else binds positionally; a definition adds the function; a call of a missing function is `Function '<name>' not found`; builtins never change |
| `GenvMain.ExecFrom` | genv/src/main.rs:410-458 | running statements never changes the builtins |
| `GenvMainContext.Context.constructor` | genv/src/main.rs:323-334 | a new context has only the `math` builtin |
| `GenvMainContext.Context.RegisterBuiltin` | genv/src/main.rs:336-338 | adds one builtin and changes nothing else |
| `GenvMainContext.Context.GetBuiltin` | genv/src/main.rs:340-342 | the builtin of that name, none exactly when absent |
| `GenvMainContext.Context.GetVariable` | genv/src/main.rs:461-463 | the binding of the name, none exactly when unbound |
| `GenvMainContext.Context.GetFunction` | genv/src/main.rs:465-467 | the function of the name, none exactly when absent |
| `GenvMainContext.Context.Clone` | genv/src/main.rs:396 | a fresh context with the same three tables |
| `GenvMainContext.Context.Evaluate` | genv/src/main.rs:346-388 | the method equals `GenvMain.Eval` of the tables |
| `GenvMainContext.Context.EvaluateAll` | genv/src/main.rs:362-365 | the method equals `GenvMain.EvalSeqFrom` |
| `GenvMainContext.Context.Execute` | genv/src/main.rs:410-458 | the new tables are `GenvMain.Exec` of the old; a failure leaves them as they were |
| `GenvMainContext.Call` | genv/src/main.rs:391-406 | the call on a clone equals `GenvMain.CallFn` |
| `GenvMainFacts.BuiltinShadowsFunction` | genv/src/main.rs:369-376 | a name whose prefix is a builtin goes to the builtin, whatever user function it names |
| `GenvMainFacts.CallingMathItself` | genv/src/main.rs:369-376 | calling `math` itself reaches the library with the name `math` and is not found there |
| `GenvMainFacts.BuiltinArgumentsUnevaluated` | genv/src/main.rs:369-373 | a builtin gets its arguments unevaluated, so `math.abs(0 - 1)` is an invalid argument |
| `GenvMainFacts.VariablesCompareByName` | genv/src/main.rs:348-358 | `x == y` compares the names, not values |
| `GenvMainFacts.SelfCallNeverReturns` | genv/src/main.rs:391-406 | a function calling itself never returns (the clone keeps it) |
| `GenvMainFacts.MathAbsTestParses` | genv/src/main.rs:476-487 | `x = math.abs(-1)` parses as `x = math` with `.abs(-1)` left over |
| `GenvMainFacts.MathAbsTestBindsVariable` | genv/src/main.rs:412-416 | executing it binds `x` to the variable `math` |
| `GenvMainFacts.MinusOneIsDouble` | genv/src/main.rs:236-245 | `-1` parses as a `Double` |
| `GenvMainFacts.MathAbsRejectsDouble` | genv/src/main.rs:300-313 | `math.abs` of a `Double` is an invalid argument |
| `GenvMainFacts.MathAbsIntended` | genv/src/main.rs:476-487 | `math.abs` of the integer `-1` binds `x` to 1 |
| `GenvMainFacts.BuiltinCallDispatch` | genv/src/main.rs:369-373 | a call whose name up to its first `.` is a builtin (`math.abs` too) goes to that builtin with the full name and the unevaluated arguments |
| `GenvMainFacts.UserFunctionCall` | genv/src/main.rs:377-381 | otherwise a known function gets the arguments evaluated in order, or their first failure |
| `GenvMainFacts.FunctionNotFound` | genv/src/main.rs:369-384 | otherwise the call is `Function '<name>' not found` |
| `GenvMainFacts.CallSeesCallerTables` | genv/src/main.rs:391-406 | with the right arity, the callee runs on a clone of the whole context: the caller's variables with the parameters bound over them, the caller's functions and builtins |
| `GenvMainFacts.ExecSequence` | genv/src/main.rs:401-403 | running statements `s + t` is running `s`, then `t` on the context `s` leaves, or the failure of `s` |
| `GenvMainFacts.BodyFailureFailsCall` | genv/src/main.rs:396-403 | when the body statements before one have run on the clone and that one fails, the call fails with its failure |
| `DeclarationOnly.Operate` | genv/src/vm/parser.rs:217-231 | integer-only arithmetic fails with `Type error in binary operation` unless both are integers; 111.rs uses the `src/` arithmetic |
| `DeclarationOnly.Eval` | genv/src/111.rs:243-290 | an atom (variables too) is itself; a function literal is itself and registers under its own name; calls are `Unsupported expression`; the function table only grows; a tuple keeps its length |
| `DeclarationOnly.EvalSeqFrom` | genv/src/111.rs:276-280 | tuple elements in order, keeping those already evaluated |
| `DeclarationOnly.ExecFrom` | genv/src/111.rs:294-303 | declarations run in order: a declaration that evaluates binds its value unless a later one rebinds the name, untouched names keep theirs, and the first failure stops the run with its binding not made |
| `DeclarationOnly.CallFn` | genv/src/vm/express.rs:19-35 | an arity mismatch is `Incorrect number of arguments` |
| `DeclarationOnly.Evaluate` | genv/src/vm/parser.rs:214-253 | the method equals `Eval` and leaves the variables unchanged |
| `DeclarationOnly.EvaluateAll` | genv/src/vm/parser.rs:237-242 | the loop equals `EvalSeqFrom` |
| `DeclarationOnly.Execute` | genv/src/vm/express.rs:7-16 | one declaration: evaluate, then bind, as `ExecFrom` predicts |
| `DeclarationOnly.Call` | genv/src/111.rs:306-322 | the call on a clone equals `CallFn` of the caller's tables, which are not written |
| `DeclarationFacts.ParsedStatementsAreDeclarations` | genv/src/111.rs:120-125 | every parsed statement is a variable declaration |
| `DeclarationFacts.EvalIgnoresVariables` | genv/src/111.rs:245 | evaluation never reads the variables |
| `DeclarationFacts.SeqIgnoresVariables` | genv/src/111.rs:276-280 | nor does a tuple's |
| `DeclarationFacts.ExecIgnoresVariables` | genv/src/111.rs:294-303 | the failure and functions after a body do not depend on the variables |
| `DeclarationFacts.ParametersAreNeverRead` | genv/src/vm/express.rs:24-33 | a call's result depends on the number of arguments only |
| `DeclarationFacts.IdentityReturnsItsParameterName` | genv/src/111.rs:306-322 | `f(x) => x` returns the variable `x`, not its argument |

## Left out

- Floating point: a `Double` is a symbolic term (`Float`): a literal's text, or an
  operation on two terms. No IEEE fact is stated, and `abs` and `as f64` are
  uninterpreted.
- Unbounded recursion: in the `src/` evaluator and in `genv/src/main.rs`, a
  variable re-evaluation and a call consume `fuel`. When it runs out the result is
  `OutOfFuel`. That stands both for a run that would overflow its stack and for a
  terminating run given too little fuel. Any other result stays the same with more
  fuel (`EvalFacts.MoreFuelSameEval`, for the `src/` evaluator), so it is the
  program's own result.
- Printing (`println!`) and file I/O. `Files.ReadFile` takes the outcome of
  opening and reading as a parameter.
- `src/vm/vm.rs` only prints. The `main` functions, `examples/hello.rs` and
  `src/bin/rhai-run.rs` are drivers. `src/context/context.rs` and
  `src/parser/paser_test.rs` are commented out. None of these is part of this model.
- nom's error values: a parser fails or cuts, with no error kind or position.
  `Runner.RunScope` gives only the `Parse error: ` prefix for a `cut` failure.
- `Comment` and `SortingHat` of `genv/src/111.rs` and `genv/src/ok.rs`: no parser
  builds them, so they are not in `Ast.Expression`. Their evaluation would be
  `Unsupported expression`.
- The variant copies that do not compile: cloning a boxed `BuiltinLibrary` in
  `genv/src/main.rs`, `==` on `Expression`, and the bogus paths of
  `genv/src/vm/parser.rs`. The model follows the evident intent.
- `Ast.Expression` has a `MethodCall` variant, which src/ast/expression.rs:7-13
  lacks. So src/parser/parser.rs:231,246 and src/parser/ttt.rs do not compile as
  shown. The model gives them the variant they evidently need.
- The `math.abs` test of `genv/src/main.rs` cannot pass as written. Identifiers
  are letters only, so `x = math.abs(-1)` binds `x` to the variable `math`
  (`GenvMainFacts.MathAbsTestBindsVariable`). Even a dotted parse would pass a
  `Double` for `-1`, which `math.abs` rejects (`GenvMainFacts.MathAbsRejectsDouble`).
  Only the intended integer call binds 1 (`GenvMainFacts.MathAbsIntended`). No
  corrected parser is modelled.
- `Libraries` models `Library::call_method` as a function of a `Library` value,
  not as a trait.
- Parser.ParseStatements: its own contract states only that a success ends inside
  the input; which statements it collects is stated through `ParseStatement` and
  `DeclarationFacts.ParsedStatementsAreDeclarations`, not as the language of the whole program.
- Parser.ParseExpression: like `ParseStatement`, `ParseBlock`, `ParseFunctionBody`,
  `ParseExpressionList`, `ParseIdentifierList` and `ParseParameterItems` (with their
  tails) and `ParseParameterList`, its own contract states progress, not the exact
  language it accepts. `ParserFacts.ExpressionAlternatives` and
  `StatementAlternatives` say every success is one of the ordered alternatives, and
  the `...Parts`/`...At` lemmas of `ParserFacts` state the parts of declarations,
  assignments, tuple assignments, parameters and method calls. The separated lists
  and the block form are stated by progress and through `ParseDelimitedList`.
- GenvMain.Operate: `==` and `!=` compare values structurally, and a `Double` is its
  literal text, so `1.0 == 1.00` is false and a NaN equals itself; IEEE comparison
  of doubles is not modelled.
- `GenvMain.MathCall` panics on `i64::MIN`, because `abs` overflows in a debug
  build, and reports this as a failure that is not an `Error`.
