# Carlae interpreter core, modelled in Dafny

Carlae is a small Lisp dialect. Its interpreter (lispjs) has three parts.

- The reader turns source text into tokens (`tokenize`) and then into a syntax tree (`parse`). Numerals become numbers; every other word stays a symbol.
- Environments (`CarlaeEnv`) are tables from names to values with a parent link. A lookup walks the chain of parents. Four arithmetic builtins live in the root table.
- The evaluator (`evaluate`, `resultAndEnv`) walks the tree. It covers numbers, symbol lookup, `fun` (anonymous functions), `def` (variables and named functions) and application.

The project models each part in the form its source takes.

- **Pure code** becomes datatypes and functions with lemmas:
  - `Syntax` holds the tree and `numberOrSymbol`.
  - `Parser` holds `parse` and its `parseHelper`.
  - `Builtins` holds the arithmetic.
  - `Lexer.Lex` is the specification of the tokenizer.
  - `Evaluator.Eval` is the specification of evaluation.
- **Step-by-step code** becomes methods with loops, proved equal to those specifications:
  - the tokenizer's character loop is `Lexer.Tokenize`;
  - the environments are the class `Env.EnvStore`, whose `Lookup` runs the parent-walking loop;
  - the evaluator itself is `Evaluator.Evaluate` and its helpers, including the argument loop.

Environments are objects that JavaScript shares by reference. The model keeps them all in one store, a sequence of frames. An environment is its index in that store, and a frame's parent always has a smaller index. A function value records two environments: the one it was created in, and the fresh local environment the constructor makes for it. The store grows only when a new environment is created. Only `defineName` changes an existing frame.

Exceptions are modelled as `Result` values (`Errors.Error`):

- `SyntaxError`, `NameError` and `EmptyReduce` cover the interpreter's own errors and the empty `reduce`.
- `Malformed` covers the JavaScript `TypeError`s raised by reading into a missing part of a tree.
- `NotANumber` and `DivisionByZero` cover the builtins' uses that JavaScript would turn into strings, NaN or infinities.
- `StackOverflow` covers runaway recursion.

The evaluator takes a `fuel` argument, and each nested call of `evaluate` spends one unit. Running out stands for the JavaScript stack overflowing.

## Model

| member | source | states |
|---|---|---|
| Syntax.NumberOrSymbol | parser.js:5-11 | A word becomes a number exactly when it matches `-?digits[.digits]`. Otherwise it becomes a symbol spelled the same as the word. |
| Syntax.NumeralTextMatches | parser.js:6 | Every word built from an optional minus, one or more digits, an optional point and more digits matches the numeral pattern. |
| Syntax.NumeralSplits | parser.js:6 | Conversely, every word that matches the pattern is built from exactly those parts. |
| Syntax.IntegerNumeralExample | parser.js:6-7 | "42" reads as the number 42. |
| Syntax.SignedDecimalExample | parser.js:6-7 | "-2.5" reads as the number -2.5. |
| Syntax.TrailingPointExample | parser.js:6-7 | "1." is a numeral and reads as 1. |
| Syntax.SymbolExamples | parser.js:6-9 | "-", ".5" and "1.2.3" stay symbols. |
| Syntax.DigitNumeral | parser.js:5-11 | A single decimal digit reads as its own value. |
| Syntax.LetterWordIsSymbol | parser.js:5-11 | A word that starts with neither a digit nor a minus is a symbol. |
| Lexer.Tokenize | parser.js:18-59 | The character loop returns exactly `Lex(source)`. Its loop invariant ties the token list, the pending word and the comment flag to the specification run on the prefix read so far. |
| Lexer.RunAppend | parser.js:24-51 | Scanning `s + t` is the same as scanning `s` and then continuing with `t`. |
| Lexer.LexEmitsTokens | parser.js:30-48 | Every token is "(" or ")", or a non-empty word with no blank, parenthesis or `#` in it. |
| Lexer.LexSpellsVisible | parser.js:18-59 | The tokens, concatenated, spell the source with its blanks and comments removed. Nothing visible is lost, reordered or invented. |
| Lexer.LexEmptyIffInvisible | parser.js:18-59 | There are no tokens if and only if the source is only blanks and comments. |
| Lexer.CommentSwallows | parser.js:25-28 | Inside a comment, text without a newline changes nothing. |
| Lexer.CommentAtEndIgnored | parser.js:25-35 | A trailing `#` comment adds no tokens. A word cut by `#` is still emitted. |
| Lexer.CommentToNewlineIgnored | parser.js:25-35 | A comment ends at the newline: the tokens are those of the text with the comment removed. |
| Lexer.CommentOnlyLineIsEmpty | parser.js:30-35 | A line that is only a comment has no tokens. |
| Lexer.UnwordsRoundTrip | parser.js:18-59 | Tokens joined by single spaces tokenize back to the same tokens. |
| Lexer.RetokenizeIsIdentity | parser.js:18-59 | Tokenizing the space-joined tokens of any source gives the same tokens again. |
| Lexer.GluedParensExample | parser.js:36-41 | "(+ 1 2)" splits into "(", "+", "1", "2", ")": parentheses need no blanks around them. |
| Lexer.TrailingCommentExample | parser.js:25-41 | "(+ 1 2) # c" gives the same tokens as "(+ 1 2)". |
| Parser.ParseHelper | parser.js:74-92 | A successful read from index `idx` ends strictly after `idx` and no further than the end of the tokens. |
| Parser.Parse | parser.js:69-95 | A successful parse of anything other than a lone token is a list. |
| Parser.ParseHelperReadsItems | parser.js:74-92 | On tokens that spell a series of expressions followed by ")", `parseHelper` returns their trees in order and the index after the ")". |
| Parser.ParseHelperReadsHead | parser.js:74-92 | The first expression at the index is read as that expression's tree, followed by what comes after it. |
| Parser.ParseRender | parser.js:69-95 | Parsing the tokens of any well-formed expression gives that expression's tree. |
| Parser.TextRoundTrip | parser.js:18-95 | The tokenizer followed by the parser gives back the tree of any expression written out with single spaces. |
| Parser.UnclosedFails | parser.js:74-92 | Without a ")" from the index on, `parseHelper` never returns; the recursion runs past the end. |
| Parser.ParseWithoutCloseFails | parser.js:69-95 | A token list with no ")" parses if and only if it is a single token other than "(". |
| Parser.ParseSumExample | parser.js:69-95 | The tokens of "(+ 1 2)" parse to the list of `+`, 1 and 2. |
| Parser.ParseEdgeExamples | parser.js:69-95 | "()" is the empty list, and a lone ")" is a symbol. An unclosed list fails, and so do two bare atoms and an empty token list. |
| Parser.ReadSound | parser.js:69-95 | The strict reader is the corrected `parse`. A successful strict read of the whole token list renders back to exactly those tokens. |
| Parser.ReadComplete | parser.js:69-95 | The strict reader accepts the rendering of every well-formed expression and returns that expression. |
| Parser.ReadAgreesWithParse | parser.js:69-95 | Wherever the strict reader succeeds, `parse` gives the same tree. |
| Parser.ParseSplicesUnclosedList | parser.js:76-84 | `parse` accepts the unbalanced tokens "(", "a", "(", "b", ")" and returns the list `a b`. The strict reader rejects them. |
| Parser.ParseWrapsOnSurplusClose | parser.js:76-81 | `parse` accepts "(", "a", ")", ")" and nests the list once more. The strict reader rejects it. |
| Builtins.Fold | carlae.js:64-66 | The left fold can fail only for division, and then the error is division by zero. |
| Builtins.ApplyBuiltin | carlae.js:60-93 | No arguments fail exactly as the unseeded `reduce` does. Two or more arguments that are not all numbers are an error. Any other successful result of two or more arguments is a number. |
| Builtins.FoldAdd | carlae.js:64-66 | Folding `+` from an accumulator gives the accumulator plus the sum of the rest. |
| Builtins.FoldSub | carlae.js:72-74 | Folding `-` gives the accumulator minus the sum of the rest. |
| Builtins.FoldMul | carlae.js:80-82 | Folding `*` gives the accumulator times the product of the rest. |
| Builtins.FoldDiv | carlae.js:88-90 | With no zero divisor, folding `/` gives the accumulator over the product of the rest. |
| Builtins.FoldDivByZero | carlae.js:88-90 | With a zero divisor anywhere, folding `/` fails with division by zero. |
| Builtins.AddIsSum | carlae.js:62-68 | `+` returns the sum of its numeric arguments. |
| Builtins.SubIsFirstMinusRest | carlae.js:70-76 | `-` returns the first argument minus the sum of the others. |
| Builtins.MulIsProduct | carlae.js:78-84 | `*` returns the product of its numeric arguments. |
| Builtins.DivIsFirstOverRest | carlae.js:86-92 | `/` returns the first argument over the product of the others, and fails exactly when one of the others is zero. |
| Builtins.SingleArgumentIsReturned | carlae.js:64-66 | A single argument is returned unchanged, whatever it is. |
| Builtins.ArithmeticExamples | carlae.js:60-93 | `(+ 1 2 3)` is 6, `(- 10 3 2)` is 5, `(* 2 3 4)` is 24 and `(/ 20 2 5)` is 2. |
| Env.Define | carlae.js:35-37 | Defining sets the name in that one frame's table and keeps its parent. Every other frame is unchanged. |
| Env.Chain | carlae.js:23-31 | The chain of an environment starts at it, follows parent links and ends at a frame without a parent. |
| Env.ResolveIsFirstBinding | carlae.js:19-33 | Lookup returns the binding in the first frame along the chain that holds the name, or `undefined` when no frame on the chain holds it. |
| Env.InnermostWins | carlae.js:20-22 | A name bound in the environment itself is found there, shadowing any ancestor. |
| Env.DefineThenResolve | carlae.js:19-37 | After `defineName`, looking up that name gives the new value, and every other name looks up as before. |
| Env.DefineLeavesOlderFrames | carlae.js:35-37 | Defining in an environment changes no lookup from an environment created before it. |
| Env.ParamKeys | carlae.js:53-56 | A missing parameter list is an error. A list gives one key per element: a symbol element gives its own name, and any other element gives no usable key. A symbol in parameter position gives one key per character, and a number gives no keys. |
| Env.BindLookup | carlae.js:53-57 | After binding, a name is present exactly when it was present before or is a parameter. The last parameter of that name gets its positional argument, or `undefined` past the end. Other names keep their values. |
| Env.RebindOverrides | carlae.js:53-57 | Passing arguments a second time to the same parameters overrides the first call's bindings entirely. |
| Env.PositionalBinding | carlae.js:53-57 | With distinct parameter names, parameter `i` is bound to argument `i`. |
| Env.FromMapResolves | carlae.js:39-43 | An environment made from a table has no parent, and looks up exactly the table's entries. |
| Env.EnvStore.New | carlae.js:14-17 | A new environment is an empty frame with the given parent, added to the store. Nothing else changes. |
| Env.EnvStore.FromMap | carlae.js:39-43 | A parentless frame holding the table is added to the store. |
| Env.EnvStore.DefineName | carlae.js:35-37 | The store becomes `Define` of the old store: only that frame's table changes. |
| Env.EnvStore.Lookup | carlae.js:19-33 | The parent-walking loop returns exactly `Resolve`, the first binding along the chain. |
| Env.EnvStore.NewFunction | carlae.js:47-51 | A function value records its parameters, its body, its creating environment and a fresh local frame whose parent is that environment. |
| Env.EnvStore.BindAll | carlae.js:54-56 | The parameter loop replaces only that frame's table, with the parameters bound to the arguments in order. |
| Env.EnvStore.PassArgs | carlae.js:53-57 | Arguments are bound in the function's local frame and nowhere else. A missing parameter list fails and changes nothing. |
| Evaluator.Eval | evaluator.js:16-72 | Evaluation keeps the store well formed and only adds frames. Of the existing frames only the current environment changes, and it keeps its parent and gains names. A result refers only to existing environments. |
| Evaluator.EvalDef | evaluator.js:35-49 | The same store discipline for `def`. |
| Evaluator.EvalCall | evaluator.js:51-72 | The same store discipline for application. |
| Evaluator.EvalArgs | evaluator.js:53-57 | On success there is exactly one value per operand, and each refers only to existing environments. |
| Evaluator.CallClosure | evaluator.js:65-71 | A user-defined call changes no environment that existed before it. |
| Evaluator.TopLevel | evaluator.js:74-79 | Given an environment, that one is used. Otherwise a new environment is used whose parent is the builtins environment, which is the corrected behaviour (see Findings). |
| Evaluator.Evaluate | evaluator.js:16-72 | The imperative evaluator leaves the store, and returns the result, that `Eval` specifies. |
| Evaluator.EvaluateDef | evaluator.js:35-49 | The same for the `def` branch. |
| Evaluator.EvaluateCall | evaluator.js:51-72 | The same for application. The argument loop's invariant says the values pushed so far, followed by the rest, are the specified argument evaluation. |
| Evaluator.CallFunction | evaluator.js:65-71 | The same for calling a user-defined function. |
| Evaluator.ResultAndEnv | evaluator.js:74-79 | Returns the result and the environment that `TopLevel` specifies. |
| EvaluatorFacts.ExtendsKeepsOlderLookups | evaluator.js:16-72 | Evaluating in an environment does not change any lookup from an environment created before it. |
| EvaluatorFacts.NumberIsItself | evaluator.js:17-19 | A number evaluates to itself and changes nothing. |
| EvaluatorFacts.SymbolIsFirstBinding | evaluator.js:21-27 | A symbol evaluates to its first binding along the chain when that binding is truthy. |
| EvaluatorFacts.UnboundSymbolFails | evaluator.js:21-27 | A symbol bound nowhere on the chain is a name error. |
| EvaluatorFacts.FalsyBindingFails | evaluator.js:22-25 | A symbol whose first binding along the chain is 0 or `undefined` is also a name error, whether that binding is in the environment itself or in an ancestor. |
| EvaluatorFacts.FunMakesClosure | evaluator.js:30-32 | `(fun params body)` gives a function capturing the current environment. It changes no existing lookup. |
| EvaluatorFacts.DefVariable | evaluator.js:37-41 | `(def name e)` fails as `e` fails. Otherwise it returns `e`'s value and binds the name to it, and other names are untouched. |
| EvaluatorFacts.DefFunction | evaluator.js:44-48 | `(def (f params...) body)` returns a function of those parameters and binds `f` to it. |
| EvaluatorFacts.CallFrameScoping | evaluator.js:65-70 | With the intended parent, a name inside a call is a parameter binding if there is one. Otherwise it is resolved in the environment the function was created in. |
| EvaluatorFacts.AsWrittenCallHidesCapturedNames | evaluator.js:66 | The call frame as written has no parent, so every name that is not a parameter is `undefined` inside the body. |
| EvaluatorFacts.CallLeavesOldEnvironments | evaluator.js:65-71 | A user-defined call leaves every lookup from a pre-existing environment as it was. |
| EvaluatorFacts.NonFunctionHeadIsUndefined | evaluator.js:52-72 | Applying a number or `undefined` evaluates the operands and gives `undefined`. |
| EvaluatorFacts.TopLevelSeesBuiltins | evaluator.js:74-77 | The fresh top-level environment looks up exactly the builtins table. |
| EvaluatorExamples.NumberArgs | evaluator.js:55-57 | Numeric operands evaluate to their numbers, in order, changing nothing. |
| EvaluatorExamples.AddExample | evaluator.js:52-62 | `(+ 1 2)` at top level is 3. |
| EvaluatorExamples.SquareBodyExample | evaluator.js:70 | `(* x x)` with `x` bound to 3 in a call frame under the top environment is 9. |
| EvaluatorExamples.SquareExample | evaluator.js:65-71 | `((fun (x) (* x x)) 3)` is 9. |
| EvaluatorExamples.DefineExample | evaluator.js:37-41 | `(def x 2)` at top level returns 2 and binds `x` in the top environment. |
| EvaluatorExamples.ArgumentsLeftToRightExample | evaluator.js:55-57 | `(+ (def x 2) x)` is 4: a definition in an earlier operand is seen by later operands. |
| EvaluatorExamples.AsWrittenTopLevelLosesBuiltins | evaluator.js:74-77 | With the parentless top environment, `(+ 1 2)` is a name error for `+`. With the builtins parent it is 3. |
| EvaluatorExamples.AsWrittenCallLosesBuiltins | evaluator.js:65-70 | With the parentless call frame, the body `(* x x)` is a name error for `*`. With the intended parent it is 9. |

## Left out

- The read-eval-print loop is I/O: `repl` in repl.js and carlae.js:254-290, and `log` at carlae.js:95-97. So is the module wiring (`require`, `module.exports`).
- carlae.js holds a second copy of the reader (carlae.js:99-193). It is the same as parser.js, which is modelled.
- carlae.js:201-252 is an older evaluator (`function`, `:=`, calling through `passArgs`) that evaluator.js replaces. It is not modelled. `passArgs` itself is modelled as `Env.EnvStore.PassArgs`.
- carlae.js exports nothing, so `require('./carlae')` at evaluator.js:1-8 yields no bindings in JavaScript. The model takes each imported name to be the carlae.js definition of that name.
- `carlaeBuiltinsEnv` is not defined anywhere. The model takes it to be the environment `fromMap(carlaeBuiltins)`, as carlae.js:203 and carlae.js:267 build it. The as-written parentless top environment is kept as `Evaluator.TopFrameAsWritten`.
- Syntax.NumberOrSymbol: numbers are exact rationals. `Number(s)` rounding to double precision is not modelled.
- Builtins.ApplyBuiltin: JavaScript arithmetic on non-numbers gives string concatenation or NaN. The model reports an error instead. A zero divisor gives an infinity or NaN in JavaScript; the model reports division by zero. On numbers without a zero divisor the results agree, up to floating-point rounding.
- Lexer.IsBlank: the JavaScript `\s` class is written out as a fixed set of characters.
- Env.EnvStore.FromMap: JavaScript shares the map object itself with the environment. The model copies the table into the frame, so a later `defineName` on that environment would not show through `carlaeBuiltins`.
- Env.ParamKeys: JavaScript can bind keys that are not strings, such as numbers or lists standing in parameter position. No symbol lookup can reach them, so the model drops them.
- Evaluator.Eval: the depth of the JavaScript stack is unknown. The fuel bound stands in for it, and running out of fuel is reported as a stack overflow.
- Env.EnvStore.PassArgs: `this.params.length` on a parameter list that is a number is `undefined`, so the loop does not run. The model gives such a function no parameters. A symbol in parameter position binds one name per character. JavaScript indexes a string by UTF-16 code units, while the model indexes it by Unicode characters, so the two differ for characters outside the Basic Multilingual Plane: for `((fun 𝑥 𝑥) 5)` JavaScript binds the two surrogate halves and the body fails with a name error, while the model binds `𝑥` and gives 5.
- Function values are compared by their contents. JavaScript compares objects by identity.
- Parser.Parse: a token list on which `parseHelper` runs off the end recurses until the JavaScript stack overflows. The model reports that at once, as a stack overflow error.

## Findings

| source | as written | input that shows it | evidently intended | confidence | as-written member | corrected member |
|---|---|---|---|---|---|---|
| parser.js:74-92 | `parse` accepts unbalanced token lists. A list still open at the end is spliced into its parent, and a surplus ")" makes an extra level of nesting. `CarlaeSyntaxError` (carlae.js:7) is never thrown. | tokens "(", "a", "(", "b", ")" give the list `a b`; tokens "(", "a", ")", ")" give `((a))` | reject unbalanced input with a syntax error | high; not executed | Parser.ParseSplicesUnclosedList | Parser.ReadComplete |
| evaluator.js:66 | The call frame is built from `fn.encloseEnv`, a property no function has, so the frame has no parent. The function body sees only its parameters. | `((fun (x) (* x x)) 3)` in a fresh top environment: `*` is unknown | the call frame's parent is the environment the function was created in | high; not executed | EvaluatorExamples.AsWrittenCallLosesBuiltins | EvaluatorFacts.CallFrameScoping |
| evaluator.js:76 | The default top environment's parent is `carlaeBuiltinsEnv`, which carlae.js never defines, so the environment has no parent and the builtins are unreachable. | `(+ 1 2)` with no environment given: `+` is unknown | the default environment is a child of `fromMap(carlaeBuiltins)`, as at carlae.js:203 | high; not executed | EvaluatorExamples.AsWrittenTopLevelLosesBuiltins | EvaluatorFacts.TopLevelSeesBuiltins |
