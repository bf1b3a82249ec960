# A verified model of rust_lisp

This project models, in Dafny, the core of a small Lisp interpreter written in Rust:

- the `Expr` value type with its equality, type predicates and two renderers;
- the `Environment` with its symbol and function tables;
- the recursive-descent reader over a peekable character stream;
- the macro expander;
- `eval_tree` with its fixed set of operators (arithmetic folds, list operations, comparisons, `cond`, `setf`, `defun` and user-function calls).

Each source file is modelled in the form it has.

- Pure code (`expression.rs`, the operators' value logic) becomes datatypes, functions and lemmas.
- Code that advances a cursor or mutates the environment becomes imperative Dafny:
  - the `Parser.Reader` class, with a position over the input;
  - the `Environments.Environment` class, with three map fields;
  - the `MacroExpander` and `Evaluator` methods, with loops and invariants.
- Every method is proved equal to a specification function:
  - `ReaderSpec` for the reader;
  - `Macros` for the macro expander;
  - `Semantics` for the evaluator.
- What the original promises is proved about those functions. The lemmas are in `ReaderLemmas`, `Macros`, `SemanticsLemmas` and `TestCases`.

Modules, in dependency order:

| module | file | models |
|---|---|---|
| `Errors` | errors.dfy | `LispError` and every message the core produces, plus the panics of 64-bit overflow |
| `Decimal` | decimal.dfy | decimal printing of `i64` and the digit values the reader parses |
| `Expressions` | expression.dfy | `src/expression.rs` |
| `Environments` | environment.dfy | `src/environment.rs`, with the macro table the expander needs |
| `Macros`, `MacroExpander` | macros.dfy, macro_expander.dfy | `src/macro_expander.rs`: the specification and the methods |
| `ReaderSpec`, `Parser`, `ReaderLemmas` | reader_spec.dfy, parser.dfy, reader_lemmas.dfy | `src/parser.rs`: the specification, the methods and the read-back theorems |
| `Arithmetic`, `ListOps`, `Comparison` | arithmetic.dfy, list_ops.dfy, comparison.dfy | the value logic of `src/operator/arithmetic.rs`, `list.rs` and `comparison.rs` |
| `Semantics`, `Evaluator`, `SemanticsLemmas` | semantics.dfy, evaluator.dfy, semantics_lemmas.dfy | `src/evaluator.rs` and the operators: the specification, the methods, and the properties of each operator |
| `TestCases` | test_cases.dfy | the evaluations that the unit tests of `src/evaluator.rs` and `src/operator/lambda.rs` check |

Choices the source leaves open, or gets wrong:

- **Macros.** `Expr::Macro` and the environment's macro table are used by `src/macro_expander.rs:32,42` but defined nowhere. The model adds a `Macro(params, body)` variant and a third table. `PartialEq` has no arm for `Macro`, so a macro equals nothing, not even itself (`Expressions.EqualIsIdentity`).
- **Variants without an arm.** `eval_tree` has no arm for `Float`, `DottedPair` or `Macro`. In the model they evaluate to themselves, like numbers.
- **`not`.** The evaluator sends `not` to a `Control::eval_not` that does not exist. In the model, `not` fails with the message "not: Control::eval_not is not defined".
- **`Evaluator::eval`.** `src/operator/lambda.rs:60,67` calls `Evaluator::eval`, which the evaluator does not define. It is taken to be `eval_tree`.
- **Termination.** User functions and macro re-expansion need not terminate. `Semantics.Eval` and `Macros.ExpandMacro` take a `fuel` argument: each nested evaluation and each re-expansion costs one unit, and running out is the error `OutOfFuel`.
- **Overflow.** Rust's `sum`, `product`, `-=` and `/=` panic on overflow in a debug build, and so does `i64::MIN / -1`. The model makes each panic an error carrying Rust's panic message. `count`'s `usize as i64` is a 64-bit wrap (`ListOps.WrapI64`).
- **Division.** It truncates toward zero (`Arithmetic.TruncDiv`), not Dafny's Euclidean `/`.
- **Floats** are kept as the lexeme the reader accepted. Equality compares lexemes, and rendering prints the lexeme.

## Model

| member | source | states |
|---|---|---|
| Expressions.EqualIsIdentity | src/expression.rs:31-43 | `PartialEq::eq` holds exactly for identical values. So values of different variants are never equal (`42`, `42.0`, `"42"`, the symbol `42` and `(42)` are pairwise unequal), and lists are equal exactly when they are elementwise equal. A value holding a macro equals nothing. |
| Expressions.AllEqualIsIdentity | src/expression.rs:38 | Two vectors are equal exactly when they have the same length and the same elements. |
| Expressions.ExactlyOneKind | src/expression.rs:48-76 | Of the six `is_*` predicates, exactly one holds for every source variant. None holds for a stored macro. |
| Expressions.ToStringOfList | src/expression.rs:85-88 | `to_string` of a list is its elements' `to_string`s, joined by single spaces, inside parentheses. The empty list is `()`. |
| Expressions.ToStringAllIsJoin | src/expression.rs:86-87 | Rendering the elements is `join(" ")` of their renderings. |
| Expressions.ToStrings | src/expression.rs:86 | The `map(to_string)` of the elements: same length, element by element. |
| Expressions.BackslashesBeforeQuotes | src/expression.rs:84 | Doubling the backslashes and then escaping the quotes escapes each character on its own: `\` becomes `\\` and `"` becomes `\"`. |
| Expressions.ToStringEscapingRoundTrip | src/expression.rs:84 | The text inside `to_string`'s quotes decodes back to the original string, so `to_string` is injective on strings. |
| Expressions.UnescapeEscapeEach | src/expression.rs:84 | Decoding undoes the per-character escaping. |
| Expressions.EscapeQuotesAppend | src/expression.rs:21 | Replacing quotes distributes over concatenation. |
| Expressions.DisplayAgreesOnStrings | src/expression.rs:15-91 | `Display` and `to_string` render a string identically exactly when it holds no backslash. |
| Expressions.BackslashesLength | src/expression.rs:84 | Doubling backslashes lengthens a string by its number of backslashes. |
| Expressions.EscapeQuotesLength | src/expression.rs:21 | Escaping quotes lengthens a string by its number of quotes. |
| Expressions.QuotesKept | src/expression.rs:84 | Doubling backslashes neither adds nor removes quotes. |
| Expressions.NoBackslashUnchanged | src/expression.rs:84 | Without a backslash, the backslash replacement changes nothing. |
| Expressions.NoQuoteUnchanged | src/expression.rs:21 | Without a quote, the quote replacement changes nothing. |
| Expressions.AtomsUnescaped | src/expression.rs:18-89 | Symbols render as their raw name and numbers in decimal, identically under both renderers. A dotted pair renders as `(a . b)`, with `Display` for its parts. |
| Expressions.Size | src/expression.rs:5-13 | Every expression has positive size; this is the measure of the recursive definitions. |
| Decimal.NatToString | src/expression.rs:81 | Printing a non-negative number gives a non-empty digit string. |
| Decimal.IntToString | src/expression.rs:81 | Printing an `i64` gives a minus sign exactly for negative values, followed by digits. |
| Decimal.ValueOfNatToString | src/parser.rs:205-207 | Parsing the printed digits gives the number back. |
| Decimal.ValueSnoc | src/parser.rs:173-185 | The value of a digit string grows by one decimal place per digit appended. |
| Environments.Env.SetSymbol | src/environment.rs:30-32 | After the insert, the key reads back as the new value. Every other key, the function table and the macro table are unchanged. |
| Environments.Env.SetFunction | src/environment.rs:34-36 | After the insert, the key reads back as the new function. Every other key, the symbol table and the macro table are unchanged. |
| Environments.Env.SetMacro | src/macro_expander.rs:32 | The insert into the macro table: only that entry changes. |
| Environments.InitialBindings | src/environment.rs:13-24 | `T` and `t` are bound to the symbol `T`, and `NIL` and `nil` to the empty list. Nothing else is bound, and there are no functions or macros. |
| Environments.Environment.Initialize | src/environment.rs:13-24 | The object built by successive inserts holds exactly the initial tables. |
| Environments.Environment.FromTables | src/environment.rs:6-10 | A struct literal holds the given tables. |
| Environments.Environment.GetSymbol | src/environment.rs:26-28 | The lookup answers the binding in the symbol table, or none. |
| Environments.Environment.GetFunction | src/environment.rs:38-40 | The lookup answers the binding in the function table, or none. |
| Environments.Environment.GetMacro | src/macro_expander.rs:42 | The lookup answers the binding in the macro table, or none. |
| Environments.Environment.SetSymbol | src/environment.rs:30-32 | The object's new tables are the old ones with that one symbol updated. |
| Environments.Environment.SetFunction | src/environment.rs:34-36 | The object's new tables are the old ones with that one function updated. |
| Environments.Environment.SetMacro | src/macro_expander.rs:32 | The object's new tables are the old ones with that one macro updated. |
| Environments.Environment.Clone | src/environment.rs:6 | `Clone` returns a fresh object holding the same tables. |
| Environments.CloneIsIndependent | src/environment.rs:6 | Updating a clone's three tables leaves the original's tables as they were. |
| Macros.ParseDefmacroOutcome | src/macro_expander.rs:9-36 | A definition succeeds exactly on at least four elements, a symbol name and a parameter list. On success it answers the empty list and adds exactly `Macro(params, body)` under the name. A failed definition leaves the table alone, and a short list gives the arity message. |
| Macros.LastIndexOf | src/macro_expander.rs:64-67 | The position of the last occurrence, which is the entry a `HashMap` insert loop keeps. |
| Macros.SubstitutionsBind | src/macro_expander.rs:63-68 | The substitution table binds a name exactly when some parameter is that symbol, to the argument of the last such parameter. Non-symbol parameters are ignored. |
| Macros.SubstituteAll | src/macro_expander.rs:99-111 | A successful substitution over a list keeps its length. |
| Macros.QuasiAll | src/macro_expander.rs:121-141 | A successful quasiquote expansion of a list keeps its length. |
| Macros.ExpandAll | src/macro_expander.rs:47-51 | Expanding the elements of a list keeps its length. |
| Macros.ExpandWithoutCalls | src/macro_expander.rs:38-55 | Expansion returns a tree that calls no macro unchanged. |
| Macros.ExpandAllWithoutCalls | src/macro_expander.rs:47-51 | The same for a list of trees. |
| Macros.EmptyTableHasNoCalls | src/macro_expander.rs:41-42 | With an empty macro table no form is a macro call. |
| Macros.AllEmptyTableHasNoCalls | src/macro_expander.rs:41-42 | The same for a list of trees. |
| Macros.ExpandKeepsShape | src/macro_expander.rs:38-55 | A non-list expands to itself. A list that is not a macro call, when it expands, expands to a list of the same length. |
| Macros.ArityMismatchFails | src/macro_expander.rs:59-61 | A macro called with a different number of arguments than it has parameters fails with the argument-count error. |
| Macros.MalformedQuasiquoteFails | src/macro_expander.rs:93-128 | A `quasiquote` form with other than one argument fails, and so does an `unquote` form with other than one argument inside a quasiquote. |
| Macros.UnquoteReplaces | src/macro_expander.rs:125-148 | Two one-element cases that contrast: `` `((unquote name)) `` with `name` bound becomes the list of its argument, while a top-level `` `,name `` is not unwrapped and only its bound symbol is replaced. `QuasiAllElement` states the general case. |
| Macros.QuasiAllElement | src/macro_expander.rs:121-141 | In every successful quasiquote expansion of a list, element k depends only on input element k. An `(unquote name)` with `name` bound becomes that argument, and any other element is quasi-expanded on its own. |
| Macros.QuasiquoteReplaces | src/macro_expander.rs:118-151 | A quasiquoted template with no `unquote` form expands like plain substitution and cannot fail. Every bound symbol at any depth, including inside a nested `quasiquote`, becomes its argument, and nothing else changes. |
| Macros.QuasiAllReplaces | src/macro_expander.rs:121-141 | For a list with no `unquote` form anywhere, the element-wise quasiquote expansion equals the element-wise replacement of bound symbols. |
| Macros.QuasiMacroExample | src/parser.rs:683-709 | The source's test: with `my-macro` defined as `(x)` with template `` `(+ ,x 10) ``, `(my-macro 5)` expands to `(+ 5 10)`. |
| Macros.ReplaceAll | src/macro_expander.rs:99-111 | Replacing the symbols of a list keeps its length. |
| Macros.SubstituteReplaces | src/macro_expander.rs:80-116 | Without quasiquote forms, `substitute` replaces each bound symbol by its argument, copies all other structure, and cannot fail. |
| Macros.SubstituteAllReplaces | src/macro_expander.rs:99-111 | The same for a list of templates. |
| Macros.ReplaceNothing | src/macro_expander.rs:82-86 | With nothing bound, replacement is the identity. |
| Macros.ReplaceAllNothing | src/macro_expander.rs:99-111 | The same for a list. |
| Macros.MacroCallExpands | src/macro_expander.rs:41-74 | A call of a macro whose template has no quasiquote form expands to the template with each parameter replaced by its argument, provided that result calls no further macro. |
| Macros.MyMacroExample | src/macro_expander.rs:161-188 | `(my-macro 5)` with template `(+ x 10)` expands to `(+ 5 10)`. |
| Macros.SumMacroExample | src/macro_expander.rs:222-250 | `(sum-macro 3 4)` with template `(+ a b)` expands to `(+ 3 4)`. |
| MacroExpander.ParseDefmacro | src/macro_expander.rs:9-36 | The method answers what `Macros.ParseDefmacro` answers and installs its macro table. The symbol and function tables are untouched. |
| MacroExpander.FillSubstitutions | src/macro_expander.rs:63-68 | The insert loop builds exactly `Macros.Substitutions(params, args)`. |
| MacroExpander.Substitute | src/macro_expander.rs:80-116 | The method with its push loops equals `Macros.Substitute`. |
| MacroExpander.ExpandQuasiquote | src/macro_expander.rs:118-151 | The method with its push loop, including the `continue` on a bound unquote, equals `Macros.ExpandQuasiquote`. |
| MacroExpander.ExpandMacro | src/macro_expander.rs:38-55 | The method equals `Macros.ExpandMacro` on the environment's macro table. |
| MacroExpander.Expand | src/macro_expander.rs:57-78 | The method equals `Macros.Expand`: arity check, substitution table, substitution, re-expansion. |
| MacroExpander.SubstituteAllStep | src/macro_expander.rs:100-103 | One step of the push loop of `substitute`. |
| MacroExpander.QuasiAllStep | src/macro_expander.rs:122-140 | One step of the push loop of `expand_quasiquote`. |
| MacroExpander.ExpandAllStep | src/macro_expander.rs:47-51 | One step of the `collect` over the elements. |
| MacroExpander.PrependTwice | src/macro_expander.rs:99-103 | Pushing elements one by one builds the same prefix as pushing them together. |
| ReaderSpec.SkipBlank | src/parser.rs:227-243 | The skip stops at the end or at a character that is neither whitespace nor `;`. |
| ReaderSpec.CommentEnd | src/parser.rs:231-238 | A comment ends within the input. |
| ReaderSpec.CommentEndIsNewline | src/parser.rs:231-238 | A comment runs up to and including the first newline, or to the end. |
| ReaderSpec.TokenEnd | src/parser.rs:117-126 | A symbol stops at the end or at whitespace or a parenthesis. |
| ReaderSpec.TokenEndSpans | src/parser.rs:117-126 | Every character a symbol takes is not a delimiter, so `;` and digits are kept. |
| ReaderSpec.ScanNumeral | src/parser.rs:137-185 | The digit-and-period loop consumes digits and periods, stops at the first other character, and records whether it saw a period. A second period stops it there with the float error. |
| ReaderSpec.NoDotAllDigits | src/parser.rs:173-185 | A numeral scanned without a period is a digit string. |
| ReaderSpec.NumeralValueCases | src/parser.rs:157-208 | A numeral with a period is a float exactly when it holds a digit. One without is an integer exactly when it is non-empty and fits in `i64`, and then has its decimal value. |
| ReaderSpec.ParseNumber | src/parser.rs:168-209 | `parse_number` consumes at least the digit it starts at. What it reads is stated by `ReaderLemmas.ReadNatural`, `ReadNumberWithJunk` and `ReadSecondPeriod`. |
| ReaderSpec.ParseSignedNumber | src/parser.rs:128-166 | `parse_number_with_leading_sign` stays within the input. What it reads is stated by `ReaderLemmas.ReadNegative` and `ReadSignedNumberRunOn`. |
| ReaderSpec.QuoteAt | src/parser.rs:214-222 | The search for the closing quote stops at a quote or at the end. |
| ReaderSpec.QuoteAtIsFirst | src/parser.rs:214-222 | No quote stands before the closing one. |
| ReaderSpec.ParseString | src/parser.rs:211-224 | `parse_string` stays within the input. What it reads is stated by `ReaderSpec.ParseStringOutcome` and `ReaderLemmas.ReadUnterminated`. |
| ReaderSpec.ParseStringOutcome | src/parser.rs:211-224 | A string literal reads exactly when a closing quote follows, and holds no quote (no escapes). Otherwise it is "Unterminated string literal" at the end of the input. |
| ReaderSpec.ParseSymbol | src/parser.rs:117-126 | `parse_symbol` always succeeds with a symbol. At a delimiter it reads the empty symbol. |
| ReaderSpec.ParseSymbolWithLeadingMinus | src/parser.rs:80-89 | Always a symbol. |
| ReaderSpec.ParseMinus | src/parser.rs:57-71 | The `-` arm stays within the input. Its three cases are stated by `ReaderLemmas.ReadNegative`, `ReadLoneMinus` and `ReadToString` (symbols that begin with `-`). |
| ReaderSpec.ParseAtom | src/parser.rs:56-73 | The atom arms consume something, except that a `)` reads as the empty symbol. |
| ReaderSpec.ParseExpr | src/parser.rs:36-78 | On success `parse_expr` moves past the first non-blank character, except at a `)`, which reads as the empty symbol and consumes nothing. |
| ReaderSpec.ParseAt | src/parser.rs:38-74 | The `match` on the first non-blank character, with the same guarantee. |
| ReaderSpec.ParseItems | src/parser.rs:94-114 | The loop of `parse_list` consumes at least its closing parenthesis. What it collects is stated by `ReaderLemmas.ItemsRendered` and `ListRendered`, and its end-of-input error by `ReadUnclosedList` and `ReadUnclosedNested`. |
| ReaderSpec.Read | src/parser.rs:12-34 | Empty, blank or comment-only input reads as the empty list and leaves the macro table alone. |
| Parser.Reader.constructor | src/parser.rs:13 | A fresh cursor at the start of the input. |
| Parser.Reader.SkipBlank | src/parser.rs:227-243 | The nested `while let` loops stop where `ReaderSpec.SkipBlank` does. |
| Parser.Reader.ParseSymbol | src/parser.rs:117-126 | The push loop reads `ReaderSpec.ParseSymbol`'s token and stops at its end. |
| Parser.Reader.ParseSymbolWithLeadingMinus | src/parser.rs:80-89 | The same for a symbol that begins with `-`. |
| Parser.Reader.ScanNumeral | src/parser.rs:137-185 | The loop with its `is_float` flag. It fails exactly where the specification meets a second period, at that period. Otherwise it takes exactly the scanned numeral. |
| Parser.Reader.ParseNumber | src/parser.rs:168-209 | The method reads `ReaderSpec.ParseNumber`'s token, including the check on the next character. |
| Parser.Reader.ParseNumberWithLeadingSign | src/parser.rs:128-166 | The method reads `ReaderSpec.ParseSignedNumber`'s token. |
| Parser.Reader.ParseString | src/parser.rs:211-224 | The method reads `ReaderSpec.ParseString`'s token. |
| Parser.Reader.ParseExpr | src/parser.rs:36-78 | The method answers and moves as `ReaderSpec.ParseExpr` does, and leaves the macro table that parsing `defmacro` forms produces. |
| Parser.Reader.ParseAt | src/parser.rs:38-74 | The same, once the blanks are skipped. |
| Parser.Reader.ParseAtom | src/parser.rs:56-73 | The string, minus, digit and symbol arms equal `ReaderSpec.ParseAtom`. |
| Parser.Reader.ParseList | src/parser.rs:91-115 | The `loop` equals `ReaderSpec.ParseItems`, and a list headed by `defmacro` is handed to `parse_defmacro`. |
| Parser.Read | src/parser.rs:12-34 | `Parser::read` equals `ReaderSpec.Read`: skip, one expression, skip, trailing-input check, then macro expansion. |
| ReaderLemmas.ReadToString | src/parser.rs:12-34 | Reading the `to_string` of any readable expression that calls no macro, other than the lone symbol `-`, gives the expression back and leaves the macro table untouched. |
| ReaderLemmas.ReadToStringInitially | src/parser.rs:12-34 | With the empty macro table, every readable expression except the lone `-` reads back. |
| ReaderLemmas.ParseExprRendered | src/parser.rs:36-78 | `parse_expr` at the printed form of a readable expression, followed by a delimiter or the end, gives the expression and stops right after it. |
| ReaderLemmas.ItemsRendered | src/parser.rs:94-105 | The `parse_list` loop over printed elements separated by single spaces collects them all, in order. |
| ReaderLemmas.ListRendered | src/parser.rs:91-115 | A printed list reads back as the list. |
| ReaderLemmas.AtomToken | src/parser.rs:56-73 | A printed readable atom is read back as one token. |
| ReaderLemmas.FirstChar | src/parser.rs:38-74 | A printed readable expression starts with a character that is neither blank, nor a comment, nor a `)`. |
| ReaderLemmas.FloatValue | src/parser.rs:157-208 | A float text is a numeral, and it parses as a float exactly when it is more than the period alone. |
| ReaderLemmas.PositiveValue | src/parser.rs:205-207 | A scanned digit string is an integer in range exactly when its value is at most 2^63 - 1. |
| ReaderLemmas.NegativeValue | src/parser.rs:162-164 | After a minus sign, the limit is 2^63. |
| ReaderLemmas.SymbolToken | src/parser.rs:117-126 | A readable symbol printed at a position is read as that symbol. |
| ReaderLemmas.StrToken | src/parser.rs:211-224 | A readable string printed at a position is read as that string. |
| ReaderLemmas.ReadQuoteSugar | src/parser.rs:41-55 | `'E`, `` `E `` and `,E` read as `(quote E)`, `(quasiquote E)` and `(unquote E)`. |
| ReaderLemmas.ReadExtraParen | src/parser.rs:25-28 | A `)` after a complete expression is "Unexpected input after list". |
| ReaderLemmas.ReadLeftover | src/parser.rs:25-28 | Anything but blanks after the expression is an error, and expansion is not reached. |
| ReaderLemmas.ReadUnclosedList | src/parser.rs:102-104 | A list whose closing parenthesis is missing is "Parse Error: Unexpected end of list". |
| ReaderLemmas.ReadUnclosedNested | src/parser.rs:94-104 | An open list inside an open list, `(xs... (ys...` with complete elements, fails with the same error: the inner list meets the end of the input, and its error ends the outer list. |
| ReaderLemmas.ReadNestedErrorExample | src/parser.rs:435-441 | `(1 (2 3` is "Parse Error: Unexpected end of list". |
| ReaderLemmas.ReadDefmacro | src/parser.rs:107-112 | A `defmacro` read at the top level stores the macro under its name and reads as the empty list. |
| ReaderLemmas.ReadNatural | src/parser.rs:168-209 | A digit string reads as its value exactly when that value fits in an `i64`. Otherwise it is "Invalid number". |
| ReaderLemmas.ReadNegative | src/parser.rs:57-166 | A minus sign and a digit string read as the negated value exactly when it fits, down to -2^63. Otherwise it is "Invalid number". |
| ReaderLemmas.ReadNumberWithJunk | src/parser.rs:192-197 | Digits followed directly by a character other than whitespace, a parenthesis, `;` or a numeral character are "Invalid number" (`42abc`). |
| ReaderLemmas.ReadSecondPeriod | src/parser.rs:175-179 | A second period in a numeral is "Invalid float" (`3.14.159`). |
| ReaderLemmas.ReadSignedNumberRunOn | src/parser.rs:128-166 | No character check follows a signed numeral: inside a list, `-42abc` reads as the number -42 followed by the symbol `abc`. |
| ReaderLemmas.ReadSignedNumberLeftover | src/parser.rs:25-166 | On its own, `-42abc` leaves `abc` over and fails with "Unexpected input after list". |
| ReaderLemmas.ReadLoneMinus | src/parser.rs:68-70 | A lone `-` at the end of input is "Invalid number". |
| ReaderLemmas.ReadLoneParen | src/parser.rs:25-126 | A lone `)` reads as the empty symbol, and the `)` left over is then an error. |
| ReaderLemmas.ReadUnterminated | src/parser.rs:223 | A string without its closing quote is "Unterminated string literal". |
| Arithmetic.TruncDivIsTruncation | src/operator/arithmetic.rs:71 | Rust's `/` truncates: the remainder is smaller than the divisor and has the dividend's sign. |
| Arithmetic.TruncDivInRange | src/operator/arithmetic.rs:71 | The only 64-bit division whose quotient does not fit is `i64::MIN / -1`. |
| Arithmetic.CheckedIsExact | src/operator/arithmetic.rs:19-71 | Each checked operation gives the exact result when it fits in 64 bits, and panics exactly when it does not. |
| Arithmetic.StepAllIsExact | src/operator/arithmetic.rs:11-52 | A fold of `+`, `-` or `*` succeeds exactly when every intermediate result fits, and then gives the exact result. Otherwise it panics with the operator's overflow message. |
| Arithmetic.AddAllIsSum | src/operator/arithmetic.rs:12-19 | The exact fold of `+` is the sum. |
| Arithmetic.SubAllIsDifference | src/operator/arithmetic.rs:32-38 | The exact fold of `-` is the first value minus the sum of the rest. |
| Arithmetic.MulAllIsProduct | src/operator/arithmetic.rs:43-50 | The exact fold of `*` is the product. |
| Arithmetic.StepAllDivides | src/operator/arithmetic.rs:63-72 | A fold of `/` from anything but `i64::MIN` succeeds exactly when no divisor is zero, and gives the quotients truncated in turn. Otherwise it is "Division by zero". |
| ListOps.WrapI64 | src/operator/list.rs:68 | `usize as i64`: a length that fits is unchanged. |
| ListOps.CarCdrCons | src/operator/list.rs:17-58 | `car` and `cdr` take apart what `cons` builds onto a list. |
| ListOps.ConsOntoAtom | src/operator/list.rs:51-58 | `cons` onto a non-list makes the two-element list, which `car` and `cdr` take apart. |
| ListOps.CountCons | src/operator/list.rs:61-71 | `count` is the length, and `cons` onto a list adds one to it. |
| ListOps.ConsCarCdr | src/operator/list.rs:11-59 | `cons` of the `car` and the `cdr` of a non-empty list is the list. |
| ListOps.NotAListFails | src/operator/list.rs:24-70 | `car`, `cdr` and `count` of a non-list fail, each with its own message. |
| Comparison.CompareNeedsNumbers | src/operator/comparison.rs:19-64 | An ordering succeeds exactly on two numbers, and answers `"true"` exactly when the relation holds. Otherwise it is "Invalid comparison". |
| Comparison.OrderingsAgree | src/operator/comparison.rs:20-62 | `>` is `<` with the operands swapped, and `>=` is `<=` swapped. `>=` answers the opposite of `<`, and `<=` the opposite of `>`. |
| Comparison.EqualValuesIsIdentity | src/operator/comparison.rs:75-87 | `=` answers `T` exactly for two identical numbers, symbols, strings or macro-free lists, and the empty list otherwise, including for mixed variants. It never fails. |
| Comparison.EqualValuesSymmetric | src/operator/comparison.rs:75-81 | `=` is symmetric. |
| Semantics.Eval | src/evaluator.rs:14-53 | Evaluation never changes the macro table. |
| Semantics.FunctionCall | src/operator/lambda.rs:37-71 | A call returns the caller's environment unchanged, whatever the body does. |
| Semantics.Setf | src/operator/set.rs:11-24 | `setf` does not change the macro table. |
| Semantics.CondFrom | src/operator/control.rs:11-24 | `cond` does not change the macro table. |
| Evaluator.EvalTree | src/evaluator.rs:14-53 | The method, on an `Environment` object, answers and leaves the state as `Semantics.Eval` does. |
| Evaluator.Dispatch | src/evaluator.rs:27-50 | The `match` on the head symbol equals `Semantics.Dispatch`. |
| Evaluator.Fold | src/operator/arithmetic.rs:11-52 | The `sum`/`product` pipelines and the `for` loops equal `Semantics.FoldFrom`. |
| Evaluator.FoldFirst | src/operator/arithmetic.rs:23-74 | `eval_subtract` and `eval_divide` equal `Semantics.FoldFirst`. |
| Evaluator.EvalCar | src/operator/list.rs:11-25 | The method equals `Semantics.EvalCar`. |
| Evaluator.EvalCdr | src/operator/list.rs:27-41 | The method equals `Semantics.EvalCdr`. |
| Evaluator.EvalCount | src/operator/list.rs:61-71 | The method equals `Semantics.EvalCount`. |
| Evaluator.EvalBoth | src/operator/comparison.rs:16-17 | Left operand first, then the right one in the environment the left one left. |
| Evaluator.EvalCons | src/operator/list.rs:43-59 | The method, with the in-place `insert(0, first)`, equals `Semantics.EvalCons`. |
| Evaluator.EvalCompare | src/operator/comparison.rs:11-65 | The method equals `Semantics.EvalCompare`. |
| Evaluator.EvalEqual | src/operator/comparison.rs:67-88 | The method equals `Semantics.EvalEqual`. |
| Evaluator.Cond | src/operator/control.rs:11-24 | The `for` loop with its early return equals `Semantics.CondFrom`. |
| Evaluator.Setf | src/operator/set.rs:11-24 | The method equals `Semantics.Setf`. |
| Evaluator.Defun | src/operator/lambda.rs:11-35 | The method equals `Semantics.Defun`. |
| Evaluator.FunctionCall | src/operator/lambda.rs:37-71 | Clone, bind loop and body evaluation equal `Semantics.FunctionCall`. The caller's object is never written. |
| SemanticsLemmas.EvalCall | src/evaluator.rs:28-47 | A form headed by a symbol hands its unevaluated tail to the operator or function of that name. |
| SemanticsLemmas.EvalLiteral | src/evaluator.rs:21 | Numbers and strings evaluate to themselves and change nothing. |
| SemanticsLemmas.FoldNumbers | src/operator/arithmetic.rs:11-52 | Folding number literals gives the value of the folded steps, in an unchanged environment. |
| SemanticsLemmas.FoldOverNumbers | src/operator/arithmetic.rs:11-52 | Number literals fold one after the other, until a step fails. |
| SemanticsLemmas.EvalFoldNumbers | src/operator/arithmetic.rs:11-52 | `(+ n...)` and `(* n...)` are the folds from 0 and from 1. |
| SemanticsLemmas.EvalFoldFirstNumbers | src/operator/arithmetic.rs:23-74 | `(- n m...)` and `(/ n m...)` are the folds from `n`. |
| SemanticsLemmas.EvalAddNumbers | src/operator/arithmetic.rs:11-21 | `(+ n...)` is the sum, 0 for no arguments. It succeeds exactly when no partial sum overflows, otherwise it panics, and it never changes the environment. |
| SemanticsLemmas.EvalMultiplyNumbers | src/operator/arithmetic.rs:42-52 | `(* n...)` is the product, 1 for no arguments. It succeeds exactly when no partial product overflows, otherwise it panics. |
| SemanticsLemmas.EvalSubtractNumbers | src/operator/arithmetic.rs:23-40 | `(- n m...)` is `n` minus the sum of the rest, so `(- n)` is `n`. It succeeds exactly when nothing overflows, otherwise it panics. |
| SemanticsLemmas.EvalDivideNumbers | src/operator/arithmetic.rs:54-74 | `(/ n m...)` divides left to right, truncating toward zero. It succeeds exactly when no divisor is zero (from anything but `i64::MIN`), otherwise it is "Division by zero". |
| SemanticsLemmas.DivideOverflows | src/operator/arithmetic.rs:71 | `(/ i64::MIN -1)` panics with the division overflow. |
| SemanticsLemmas.NoOperandFails | src/operator/arithmetic.rs:25-58 | `-` and `/` without arguments fail with their "requires at least one argument" messages. |
| SemanticsLemmas.NonNumberFails | src/operator/arithmetic.rs:17-66 | An argument that is not a number ends every fold with "Invalid number". Later arguments are not evaluated. |
| SemanticsLemmas.EvalQuote | src/operator/list.rs:73-78 | `quote` returns its one argument unevaluated. |
| SemanticsLemmas.EvalOfCons | src/operator/list.rs:11-59 | `car` of a `cons` form is the value of its first operand. `cdr` of it is the second operand's value if that is a list, or the one-element list of it otherwise. The operands are evaluated in order, and errors propagate. |
| SemanticsLemmas.EvalCountQuote | src/operator/list.rs:61-71 | `count` of a quoted list is its length. |
| SemanticsLemmas.EvalNotAList | src/operator/list.rs:24-70 | `car`, `cdr` and `count` of a non-list value fail. |
| SemanticsLemmas.EvalOrdering | src/operator/comparison.rs:11-65 | An ordering of two numbers answers `"true"` or `"false"`, as the relation holds. |
| SemanticsLemmas.TruthyMeans | src/operator/control.rs:15 | A `cond` test passes exactly when it is neither the empty list nor the string `"false"`. |
| SemanticsLemmas.ComparisonsAsTests | src/operator/control.rs:15 | An ordering's `"true"` and `=`'s `T` pass as tests; `"false"` and the empty list do not. |
| SemanticsLemmas.CondShift | src/operator/control.rs:12 | The loop does not look at clauses before its start. |
| SemanticsLemmas.CondAppend | src/operator/control.rs:12-23 | A `cond` that falls through its first clauses goes on with the rest in the environment the tests left. One that stops early never looks at the rest, which may even be malformed. |
| SemanticsLemmas.CondPicksFirst | src/operator/control.rs:15-18 | `cond` answers with the body of the first clause whose test passes, evaluated after the tests before it. What follows is ignored. |
| SemanticsLemmas.CondFallsThrough | src/operator/control.rs:23 | When no test passes, `cond` answers the empty list. |
| SemanticsLemmas.CondMalformed | src/operator/control.rs:20 | A clause reached by the loop that is not a two-element list fails with "cond: invalid clause". |
| SemanticsLemmas.EvalSetf | src/operator/set.rs:21-23 | `(setf s e)` answers the value of `e` and binds `s` to it in the environment that evaluation left. Nothing else changes, the function table included. If `e` fails, nothing is bound. |
| SemanticsLemmas.SetfThenLookup | src/operator/set.rs:21-23 | After a successful `setf`, the symbol evaluates to the value set. |
| SemanticsLemmas.SetfLiteral | src/operator/set.rs:21-23 | Setting a literal adds exactly that binding. |
| SemanticsLemmas.SetfMalformed | src/operator/set.rs:12-19 | With other than two arguments, or a non-symbol first, `setf` fails before evaluating anything. |
| SemanticsLemmas.EvalDefun | src/operator/lambda.rs:11-35 | `defun` succeeds exactly on three arguments with a symbol name and a parameter list. It then stores `(lambda params body)` under the name, changes no other function, and answers the name. The symbol table is untouched, and a failing `defun` changes nothing. |
| SemanticsLemmas.UserFunctionCall | src/evaluator.rs:47 | A head symbol that is no operator is a call of a user function. |
| SemanticsLemmas.CallLeavesEnvironment | src/operator/lambda.rs:57-67 | A user-function call leaves the caller's environment as it was. |
| SemanticsLemmas.CallErrors | src/operator/lambda.rs:38-55 | A name without a definition is "Undefined function: name". A wrong argument count is refused before any argument is evaluated. |
| SemanticsLemmas.LambdaShape | src/operator/lambda.rs:31-51 | What `defun` stores passes every check of a call. |
| SemanticsLemmas.BindNumbers | src/operator/lambda.rs:58-65 | Binding number literals binds the parameters to them, in order. |
| SemanticsLemmas.CallWithNumbers | src/operator/lambda.rs:37-71 | A function applied to numbers runs its body with the parameters bound over the caller's environment, and the caller's environment stays as it was. |
| SemanticsLemmas.LaterArgumentSeesEarlier | src/operator/lambda.rs:58-61 | Arguments are evaluated in the local copy as it is being built. In `(f v p)` for parameters `(p q)`, the second argument `p` already has the first argument's value. |
| TestCases.SymbolExamples | src/evaluator.rs:76-108 | `x` is 10 and `z` is undefined. `42`, `"Hello"` and `()` evaluate to themselves. |
| TestCases.AddNumbersExample | src/evaluator.rs:110-120 | `(+ 1 2)` is 3. |
| TestCases.MultiplyNumbersExample | src/evaluator.rs:122-128 | `(* 3 4)` is 12. |
| TestCases.ConsExample | src/evaluator.rs:135-149 | `(cons 1 (quote (2 3)))` is `(1 2 3)`. |
| TestCases.CarExample | src/evaluator.rs:151-160 | `(car (quote (1 2 3)))` is 1. |
| TestCases.CdrExample | src/evaluator.rs:162-171 | `(cdr (quote (1 2 3)))` is `(2 3)`. |
| TestCases.CondFirstExample | src/evaluator.rs:178-196 | `(cond ((> 5 3) 42) (else 0))` is 42. |
| TestCases.CondSecondExample | src/evaluator.rs:198-220 | `(cond ((< 5 3) 42) ((> 5 3) 100))` is 100. |
| TestCases.FalseTestFallsThrough | src/operator/control.rs:15-17 | A clause whose test answers `"false"` passes control on, with the environment unchanged. |
| TestCases.DefunExample | src/operator/lambda.rs:91-122 | `defun` of `add` answers `add` and stores its lambda. |
| TestCases.AddBodyAdds | src/operator/lambda.rs:134-138 | `(+ a b)` with `a` = 3 and `b` = 4 is 7. |
| TestCases.AddExample | src/operator/lambda.rs:124-155 | `(add 3 4)` is 7, and the caller's environment is unchanged. |
| TestCases.CallErrorExamples | src/operator/lambda.rs:200-249 | `(add 3)` fails on the argument count, and `undefined_func` is undefined. |
| TestCases.DefunErrorExamples | src/operator/lambda.rs:157-198 | Both malformed `defun`s of the test fail on the arity check. |
| TestCases.FibMonotone | src/operator/lambda.rs:252-305 | The Fibonacci numbers never decrease. |
| TestCases.EqUndefined | src/operator/lambda.rs:262-266 | `(eq n m)` calls a function nobody defined. |
| TestCases.FibBodyAsWritten | src/operator/lambda.rs:259-283 | The body as written fails at its first test with "Undefined function: eq". |
| TestCases.FibAsWritten | src/operator/lambda.rs:252-305 | As written, `defun` of `fib` succeeds, but `(fib 6)` fails with "Undefined function: eq" instead of answering 8. |
| TestCases.EvalTest | src/operator/comparison.rs:67-88 | `(= n m)` with `n` bound to a number answers `T` exactly when `n` is `m`. |
| TestCases.EvalMinus | src/operator/arithmetic.rs:23-40 | `(- n m)` is `n - m`. |
| TestCases.EvalRecurse | src/operator/lambda.rs:57-67 | `(fib (- n m))` runs the body with `n` bound to `n - m`, and leaves the environment as it was. |
| TestCases.FibBodyIsCond | src/operator/lambda.rs:259-260 | The corrected body is a `cond` over its three clauses. |
| TestCases.FibTests | src/operator/control.rs:15-17 | The tests `(= n 1)` and `(= n 0)` pass exactly for 1 and for 0. |
| TestCases.FibLastClause | src/operator/control.rs:15-17 | The last clause's test, `t`, always passes. |
| TestCases.FibCond | src/operator/lambda.rs:259-283 | The corrected body picks 1 for 1, 0 for 0, and the sum of the two recursive calls otherwise. |
| TestCases.FibSumAdds | src/operator/arithmetic.rs:11-21 | The sum of the two recursive calls adds their answers. |
| TestCases.FibStep | src/operator/lambda.rs:269-282 | For `n` of at least 2, the body adds the answers for `n - 1` and `n - 2`. |
| TestCases.FibBodyComputes | src/operator/lambda.rs:259-283 | With enough fuel and a result within 64 bits, the corrected body computes the n-th Fibonacci number. |
| TestCases.FibCorrected | src/operator/lambda.rs:252-305 | With `=` for `eq`, `defun` of `fib` answers `fib`, `(fib n)` is the n-th Fibonacci number, and `(fib 6)` is 8. |

## Left out

- `src/main.rs`: the REPL and the file interpreter do only terminal and file I/O. Its calls of `Parser::read` without the environment argument are not modelled; the model's `Read` always takes the macro table.
- `src/operator/mod.rs`: the global operator registry. `eval_tree` never consults it, because its dispatch is a fixed `match`.
- `src/exception.rs`: `LispError` is a message string. The model uses an error datatype that carries the same messages.
- Floating point: the conversion of a numeral to `f64` and the printing of an `f64`. A float is its lexeme, so floats are equal when their lexemes are, which is not `f64` equality (`1.0` and `1.00`).
- Unicode `is_whitespace` is modelled as the list of White_Space code points. Case and normalisation play no part.
- Panics: overflow in a debug build is an error value. A release build's wrap-around is not modelled.
- Non-termination: `eval_tree` and `expand_macro` take a fuel argument, and running out is an error. The model says nothing about inputs on which the original loops forever.
- `not`: the original's dispatch names a function that does not exist. The model answers an error.
- Parser.Reader.ParseNumberWithLeadingSign: models only `is_negative == true`, because that is how `parse_expr` calls it.
- ReaderLemmas.ReadToString: the round trip covers the readable expressions: no dotted pairs or macros, no strings holding `"` or `\` (the reader does not undo escaping), and symbols and floats that re-read as themselves.
- Macros.QuasiMacroExample: states the expansion step of the source test, starting from the already-parsed call and macro table. Reading these two exact strings and then evaluating the result to 15 are not stated. `ReaderLemmas.ReadDefmacro` covers reading any `defmacro`, and `SemanticsLemmas.EvalFoldNumbers` covers evaluating any sum of numbers.
- Semantics.Eval: `Float`, `DottedPair` and `Macro` have no arm in the original's `match`. The model evaluates them to themselves.
- Evaluator.FunctionCall: the original calls `Evaluator::eval`, which is not defined. The model uses `eval_tree`.
- TestCases.FibBodyComputes: proved for fuel of at least 3n + 3 and results within 64 bits. Recursion that exhausts Rust's stack is not modelled.

## Findings

| source | as written | input that shows it | evidently intended | confidence | as-written member | corrected member |
|---|---|---|---|---|---|---|
| src/operator/lambda.rs:252-305 | The `fib` of the unit test compares with `eq`. `eq` is neither an operator of `eval_tree` nor a defined function. | `(fib 6)` fails with "Undefined function: eq" instead of answering 8 | the operator `=` in place of `eq` | not executed | TestCases.FibAsWritten | TestCases.FibCorrected |
