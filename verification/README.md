# typecrate core in Dafny

This project models the core of typecrate, a Python library for declaring typed
fields and reading values out of nested data. There are four parts:

- **Source expressions** (`typecrate/expression.py`, module `Expression`).
  - A path such as `person.name?`, `items[*].id` or `rows[1:3]` is parsed into a list of `(operation, attribute)` steps.
  - The steps are then walked over a value: a dict lookup per OBJ step, a comprehension over the list for ARR, ARR_SLICE and ARR_SELECT steps.
  - A missing key gives the default when a default exists, or when the step's name ends in `?`. A `?` stays on a name only as the very last character of the path; anywhere else it ends the segment and is dropped, so `a.b?.c` holds no optional step.
- **Arithmetic** (`typecrate/tmath.py`, module `TMath`).
  - `MathParser` turns text into tokens (numbers, the seven operator characters, function names and variables) and evaluates them by recursive descent.
  - `expr` handles `+ -`, `term` handles `* / %` and `factor` handles calls, unary signs, numbers, variables and parentheses.
- **Fields** (`typecrate/fields.py`, module `Fields`).
  - The choice helpers turn a list of choices into an ordered dict and flatten grouped choices.
  - The error-message builder and the two stock validators.
  - The `Field` class: its constructor checks, its `validators` property and `bind`.
- **EArray** (`typecrate/structure.py`, module `Structure`).
  - A wrapper around a Python list that can present its elements de-duplicated.
  - It supports indexing, deletion, appending and `+` / `+=`.

Supporting modules model the Python built-ins the core relies on:

- `Wrappers`: `Option` and `Result`.
- `PyText`: `str.strip`, `int()`, `str.split`, `str.join` on ASCII text.
- `PyValue`: a dynamic value type with Python truthiness, hashability and `callable`.
- `PySeq`: indexing with negative indices, slicing, de-duplication.
- `PyDict`: an insertion-ordered dict as a sequence of entries.

The form of the model follows the source:

- Parsing, evaluation and the choice helpers are pure functions. The loops of the source are methods whose postconditions tie them to those functions.
- `MathParser`, `Field` and `EArray` are classes, because the source updates their fields in place.
- `EArray` keeps its list as a separate `PyList` object, so a list shared with the caller stays shared.

Where a docstring and the code disagree, the model follows the code:

- `to_choices_dict([('Group', ((1, '1st'), 2))])` gives `{'Group': {1: '1st', 2: 2}}`. The docstring's `2: '2'` is wrong (see `Fields.DocumentedGroup`).
- The examples in the `Expression` docstring that index a list are wrong:
  - `students[0].name` loses its index, because index 0 is falsy.
  - A positive index never yields a value (`Expression.ArrSelectNeverSucceeds`).
- The `person.name?` example over `{'person': {}}` gives `{}`, not `None`. The empty dict is falsy, so the walk stops there (`Expression.OptionalOverEmptyDict`). Over a non-empty dict without `name` it gives the default `Empty` (`Expression.OptionalMissingGivesDefault`).
- A slice with only a negative step, such as `[::-1]`, is empty rather than reversed. The `or` defaults give start 0 and end `len`, so nothing lies between them going backwards (`Expression.ReversedSliceIsEmpty`).
- `Field.__init__` raises "`validators` must be list or tuple" exactly when a **non-empty** list or tuple is given, and the same holds for `choices`. The condition is the reverse of what its message asks for, and the model keeps it.

## Model

| member | source | states |
|---|---|---|
| Expression.ToInt | typecrate/expression.py:42-45 | empty text gives `None`; other text succeeds exactly when `int()` accepts it (blanks, including `\x1c`-`\x1f`, stripped, an optional sign, decimal digits), with `int()`'s value |
| Expression.ToInts | typecrate/expression.py:59-64 | mapping `to_int` succeeds exactly when every part converts, giving one bound per part in order; otherwise the "slice operators must be integer" error |
| Expression.Classify | typecrate/expression.py:54-72 | a name is returned verbatim; the result is an index exactly for all-digit text, with its decimal value; it is a slice or an error exactly when the text holds `:` |
| Expression.ExtractAttribute | typecrate/expression.py:48-72 | classification of the text stripped of Python's blanks (including `\x1c`-`\x1f`), minus one trailing `]` and one leading `[`; an extracted index is never negative |
| Expression.CoreUnchanged | typecrate/expression.py:49-53 | text with no blank (in Python's sense, `\x1c`-`\x1f` included) or bracket at its ends is not changed by the stripping |
| Expression.SeparatorsStripped | typecrate/expression.py:42-53 | a leading `\x1c` or `\x1f` is stripped: `extract_attribute("\x1ca")` is the name `a` and `to_int("\x1f7")` is 7 |
| Expression.ToIntsShowBounds | typecrate/expression.py:59-64 | printed slice bounds convert back to the same bounds |
| Expression.ClassifyColon | typecrate/expression.py:58-71 | text holding `:` is handled as the slice of its colon-separated parts |
| Expression.ExtractJoinedBounds | typecrate/expression.py:58-71 | printed bounds joined by `:` are extracted as the slice those parts describe |
| Expression.ExtractSliceRoundTrip | typecrate/expression.py:58-71 | printing `start:end:step` and extracting it gives back the same three bounds |
| Expression.ExtractSliceTwoParts | typecrate/expression.py:69-70 | a two-part slice gets step 1 appended |
| Expression.ExtractSliceTooLong | typecrate/expression.py:65-68 | four or more well-formed parts are refused as too long |
| Expression.ExtractSliceNotInteger | typecrate/expression.py:59-64 | a word as a slice bound is refused as not an integer |
| Expression.ExtractIndexRoundTrip | typecrate/expression.py:49-57 | a printed natural number, with or without the closing `]`, is extracted as that index |
| Expression.ExtractName | typecrate/expression.py:54-55 | alphabetic text is extracted as the same name |
| Expression.ExtractEmpty | typecrate/expression.py:48-72 | the empty segment falls through every test and is returned as the empty name |
| Expression.ExtractDigit | typecrate/expression.py:56-57 | a single digit is extracted as its value |
| Expression.FormatAttributeSpec | typecrate/expression.py:75-80 | `format_attribute` drops every `?` and `^` and keeps every other character |
| Expression.FormatAttributeKeeps | typecrate/expression.py:75-80 | a name without `?` and `^` is unchanged |
| Expression.FormatAttributeIdempotent | typecrate/expression.py:75-80 | formatting twice is the same as formatting once |
| Expression.OperationTypeOf | typecrate/expression.py:100-107 | OBJ exactly outside brackets; inside brackets, ARR exactly for `*` and ARR_SLICE exactly for a slice |
| Expression.ParseExpression | typecrate/expression.py:214-273 | the loop returns the steps, or the syntax error, that the parse function `Parse` defines |
| Expression.Scan | typecrate/expression.py:215-273 | the loop, run with any segment classifier, returns what the scanner function `ScanFrom` defines from the start of the text |
| Expression.ParseWellFormed | typecrate/expression.py:214-273 | a path that parses has balanced, unnested brackets and no index right after `.`, `?` or `^`; every step has a truthy attribute, the operation OBJ or the in-bracket classification of its attribute, and any index is at least 1 |
| Expression.ParseWithoutBrackets | typecrate/expression.py:100-107 | text without `[` never enters brackets, so every step it parses to is an OBJ step |
| Expression.ParseDottedNames | typecrate/expression.py:121-122 | `a.b.c` parses to one OBJ step per name, in order |
| Expression.ExtractAttributeReadsNames | typecrate/expression.py:54-55 | the extractor reads every alphabetic segment as that name, which the dotted-path lemmas rely on |
| Expression.ParseQuestionOnlyLast | typecrate/expression.py:219-234 | in every parsed path, a name keeps a `?` only in the last step and only when the text's last character is `?` |
| Expression.ExtractOptionalName | typecrate/expression.py:54-55 | a name followed by `?` is extracted with its `?` |
| Expression.ParseKeepsFinalQuestion | typecrate/expression.py:219-234 | `p.n?` parses to two OBJ steps, the second keeping its `?` |
| Expression.ParseDropsInnerQuestion | typecrate/expression.py:219-234 | `a.b?.c` parses to the three plain names: the inner `?` is a separator and is dropped |
| Expression.ParseDropsIndexZero | typecrate/expression.py:231-234 | `a[0].b` parses to the two OBJ steps only: index 0 is falsy and is never recorded |
| Expression.ParseRejectsIndexAfterDot | typecrate/expression.py:258-265 | `a.[1]` is refused: an index may not follow `.` |
| Expression.NewExpression | typecrate/expression.py:194-198 | construction succeeds exactly when the text parses, and keeps the text, the default and the parsed steps |
| Expression.Select | typecrate/expression.py:341-349 | ARR passes the whole list on; ARR_SELECT succeeds exactly for an integer index in `[-len, len)`, giving the one-element list of the element there (negative counted from the end), and otherwise `IndexError` or `TypeError`; a slice takes the elements at start, start + step, … while before the end, with the `or` defaults and Python's clamping, in order |
| Expression.Get | typecrate/expression.py:314-359 | the walk returns what the step semantics `Run` defines, with the call's default resolved against the expression's |
| Expression.GetEach | typecrate/expression.py:351-353 | the comprehension returns what `RunEach` defines: the rest of the path applied to each element |
| Expression.ExprGetAttribute | typecrate/expression.py:203-212 | a name ending in `?` never fails; it fails exactly when the formatted key is missing, the name has no `?` and no default exists, with `ValueDoesNotExist` naming the attribute; any other result than the default is the value stored under the formatted key |
| Expression.GetObjStepIsGetAttribute | typecrate/expression.py:203-212 | the OBJ step of `get` agrees with the `get_attribute` method: the same error or default, and on a found key the walk goes on from its value |
| Expression.OptionalLooksUpBareName | typecrate/expression.py:203-212 | `n?` looks up the key `n`, without its `?` |
| Expression.HandleObjAttr | typecrate/expression.py:275-278 | look the attribute up, then walk the rest of the path from the next step |
| Expression.HandleObjAttrAgainstGet | typecrate/expression.py:275-278 | on a found attribute `handle_obj_attr` agrees with `get`; on a missing optional one it goes on walking from the default, where `get` returns the default |
| Expression.FlattenNoLists | typecrate/expression.py:302-309 | results that are not lists are collected unchanged |
| Expression.CollectResults | typecrate/expression.py:289-309 | the loop collects each element's result, splicing lists in, and the first failure propagates |
| Expression.HandleArrayAttr | typecrate/expression.py:280-312 | the method returns what the function `ArrayAttr` defines: the not-iterable error, the slice bounds defaulted by `or`, and the final index for ARR_SELECT |
| Expression.RunObjStep | typecrate/expression.py:325-333 | an OBJ step on a one-key dict holding its name moves on to the value under that key |
| Expression.DottedPathRoundTrip | typecrate/expression.py:121-122 | a dotted path parses to one OBJ step per name, and walking those steps over the nested dicts it names reaches the leaf |
| Expression.RunStops | typecrate/expression.py:322 | once the path is used up or the value is falsy, the value itself is returned |
| Expression.RunMissingKey | typecrate/expression.py:326-331 | a missing key gives the default when the step ends in `?` or a default exists, and otherwise `ValueDoesNotExist` |
| Expression.OptionalOverEmptyDict | typecrate/expression.py:141-146 | `p.n?` over `{p: {}}` gives `{}`: the walk stops at the falsy empty dict |
| Expression.OptionalMissingGivesDefault | typecrate/expression.py:141-146 | `p.n?` over `{p: d}` with `d` non-empty and without `n` gives the default |
| Expression.InnerQuestionNotOptional | typecrate/expression.py:219-234 | with `a.b?.c` and no default, a missing `b` raises `ValueDoesNotExist`: the inner `?` does not make the step optional |
| Expression.RunNotIterable | typecrate/expression.py:336-339 | an array step on a truthy value that is not a list raises the not-iterable error |
| Expression.RunEachPointwise | typecrate/expression.py:351-353 | the comprehension succeeds exactly when every element does, with one result per element in order; otherwise the first failure is the outcome |
| Expression.ArrSelectNeverSucceeds | typecrate/expression.py:348-355 | an ARR_SELECT step with index n >= 1 always fails: the element is wrapped in a one-element list, which is then indexed with n again |
| Expression.ParsedArrSelectFails | typecrate/expression.py:348-355 | every ARR_SELECT step the parser records fails when it is reached with a truthy value |
| Expression.ArrWalksWholeList | typecrate/expression.py:341-353 | `[*]`, and a slice whose bounds are all defaulted, walk the whole list |
| Expression.SliceWalksRange | typecrate/expression.py:341-353 | `[s:t]` with in-range bounds walks exactly elements `s` to `t - 1` |
| Expression.SliceToEnd | typecrate/expression.py:341-346 | `[s:]` with `0 <= s <= len` walks exactly the elements from `s` on |
| Expression.SliceNegativeStart | typecrate/expression.py:341-346 | `[-n:]` walks the last `n` elements |
| Expression.ReversedSliceIsEmpty | typecrate/expression.py:341-346 | `[::-1]` gives the empty list, not the reversed one |
| Expression.RunEachScalars | typecrate/expression.py:351-353 | when every element yields a non-list, the comprehension succeeds, and splicing its results changes nothing |
| Expression.ArrayAttrAgreesWithGet | typecrate/expression.py:280-312 | when every element yields a non-list, `handle_array_attr` and `get` agree on `[*]` and slice steps |
| Expression.ArrayAttrSelects | typecrate/expression.py:310-311 | on ARR_SELECT, `handle_array_attr` returns the indexed element's result, where `get` always fails |
| TMath.NumberRun | typecrate/tmath.py:79-82 | the longest run of digits and dots at the front of the text |
| TMath.NameRun | typecrate/tmath.py:105-109 | the longest run of letters, `@`, `{` and `}` at the front of the text |
| TMath.NameToken | typecrate/tmath.py:110-118 | a name becomes a FUNCTION token exactly when it is registered, and a VARIABLE otherwise |
| TMath.NextLexeme | typecrate/tmath.py:72-125 | one pass of the loop reads at least one known character and emits at most one token, never `EOF`; it never reports empty input |
| TMath.ScanNumber | typecrate/tmath.py:79-82 | the inner loop stops at the end of the run of digits and dots |
| TMath.ScanName | typecrate/tmath.py:105-109 | the inner loop stops at the end of the run of name characters |
| TMath.LexNumberStep | typecrate/tmath.py:73-87 | a number is read over its whole run: a token with `int()` or `float()` of the text, or the `ValueError` for a second dot |
| TMath.LexNameStep | typecrate/tmath.py:103-118 | a name is read over its whole run, as a function or a variable |
| TMath.LexCharStep | typecrate/tmath.py:89-125 | an operator gives its token, a space or tab is skipped, and any other character raises "Unknown character" |
| TMath.LexPass | typecrate/tmath.py:71-125 | one pass of the loop, followed by the rest of the loop, is the whole loop from that position |
| TMath.LexRestKeeps | typecrate/tmath.py:71-125 | the tokens already collected stay in front |
| TMath.LexRestEOF | typecrate/tmath.py:127 | without an error, exactly one `EOF` is appended, at the end |
| TMath.LexSeparatorsBlank | typecrate/tmath.py:67-68 | text made of `\x1c`-`\x1f` is empty input |
| TMath.LexRestNotEmpty | typecrate/tmath.py:67-68 | only the blank check before the loop reports empty input |
| TMath.LexRestAlphabet | typecrate/tmath.py:122-125 | text read without an error holds only characters the tokenizer knows |
| TMath.LexEndsWithEOF | typecrate/tmath.py:53-127 | a successful `tokenize` ends its list with exactly one `EOF` |
| TMath.LexEmptyInput | typecrate/tmath.py:67-68 | "Empty input provided." is raised exactly for blank text |
| TMath.LexAlphabet | typecrate/tmath.py:122-125 | a successful `tokenize` has read only known characters |
| TMath.LexNameThenUnknown | typecrate/tmath.py:103-125 | an unknown character right after a name raises after the name's token is appended |
| TMath.LexRejectsUnderscore | typecrate/tmath.py:103-125 | `unknown_func(4)` fails at `_` after reading the variable `unknown` |
| TMath.LexBlank | typecrate/tmath.py:120-121 | a blank is skipped |
| TMath.DecimalNumbers | typecrate/tmath.py:83-86 | a run with one dot is read by `float()`: `2.5` is 2.5 and `.5` is 0.5 |
| TMath.SecondDotInvalid | typecrate/tmath.py:83-86 | a second dot is `float()`'s `ValueError` |
| TMath.InvalidNumberRaises | typecrate/tmath.py:72-87 | a run of digits and dots that `float()` refuses makes `tokenize` raise on the whole run, with no token emitted |
| TMath.SecondDotRaises | typecrate/tmath.py:72-87 | `tokenize("1.2.3")` raises on the whole run before emitting anything |
| TMath.LexNumberText | typecrate/tmath.py:73-87 | the decimal text of a natural number is read back as that number |
| TMath.LexNameText | typecrate/tmath.py:103-118 | a name followed by a blank is read back as its token |
| TMath.LexToken | typecrate/tmath.py:72-121 | the text of any printable token, followed by a blank, is read back as that token |
| TMath.LexRender | typecrate/tmath.py:71-127 | the loop over printed tokens gives those tokens back, then `EOF` |
| TMath.LexRoundTrip | typecrate/tmath.py:53-127 | `tokenize` of printed tokens gives them back, followed by `EOF` |
| TMath.FloorModSpec | typecrate/tmath.py:216 | Python's `%`: the remainder lies between 0 and the divisor, with the divisor's sign, and differs from the dividend by a whole multiple of it |
| TMath.ExprAt | typecrate/tmath.py:170-190 | `expr` consumes at least one token and stops before `EOF` |
| TMath.ExprLoop | typecrate/tmath.py:182-189 | the `+`/`-` loop never moves backwards and stops before `EOF` |
| TMath.TermAt | typecrate/tmath.py:192-217 | `term` consumes at least one token and stops before `EOF` |
| TMath.TermLoop | typecrate/tmath.py:204-216 | the `*`, `/`, `%` loop never moves backwards and stops before `EOF` |
| TMath.FactorAt | typecrate/tmath.py:219-275 | `factor` consumes at least one token and stops before `EOF` |
| TMath.FactorSigned | typecrate/tmath.py:237-247 | a unary sign negates, or keeps, the factor after it |
| TMath.FactorGroup | typecrate/tmath.py:262-271 | `(`, an expression, then any operator: the expression's value |
| TMath.FactorCall | typecrate/tmath.py:229-236 | a function name, any operator, an expression, any operator: the function applied to the expression's value |
| TMath.AtomParseLit | typecrate/tmath.py:248-249 | a number token is its value |
| TMath.AtomParseRef | typecrate/tmath.py:250-261 | a variable is looked up in `variables`, and a missing one raises "Unknown variable" |
| TMath.AtomParse | typecrate/tmath.py:219-275 | `factor` over an atom's tokens returns the atom's value |
| TMath.ProductParse | typecrate/tmath.py:192-217 | `term` over a product's tokens returns the product's value, folded from the left |
| TMath.ProductTailParse | typecrate/tmath.py:204-216 | the loop of `term` folds the remaining factors from the left |
| TMath.TermLoopStep | typecrate/tmath.py:207-216 | one pass of `term`'s loop: multiply, or divide and raise on a zero divisor, or take Python's `%` |
| TMath.SumParse | typecrate/tmath.py:170-190 | `expr` over a sum's tokens returns the sum's value, when no binary operator follows |
| TMath.SumTailParse | typecrate/tmath.py:182-189 | the loop of `expr` folds the remaining terms from the left |
| TMath.ExprLoopStep | typecrate/tmath.py:185-189 | one pass of `expr`'s loop adds or subtracts the next term |
| TMath.EvaluateOf | typecrate/tmath.py:140-143 | `parse` returns what `expr` computes from the first token |
| TMath.EvaluateTokens | typecrate/tmath.py:129-143 | text that tokenizes to a tree's tokens evaluates to the tree's value |
| TMath.EvaluateTree | typecrate/tmath.py:129-275 | the printed form of any expression tree evaluates to the tree's value: precedence, left folding, signs, groups and calls |
| TMath.MultiplicationFirst | typecrate/tmath.py:170-217 | `a + b * c` is `a + (b * c)` |
| TMath.SubtractionFromLeft | typecrate/tmath.py:182-189 | `a - b - c` is `(a - b) - c` |
| TMath.DivisionFromLeft | typecrate/tmath.py:210-214 | `a / b / c` is `(a / b) / c` |
| TMath.UnaryMinus | typecrate/tmath.py:237-247 | `-a + b` is `(-a) + b` |
| TMath.GroupFirst | typecrate/tmath.py:262-271 | `(a + b) * c` is `(a + b) * c` |
| TMath.DivisionByZeroRaised | typecrate/tmath.py:210-213 | `a / 0` raises "Division by zero" |
| TMath.ModuloByZeroRaised | typecrate/tmath.py:215-216 | `a % 0` raises, through Python's own check |
| TMath.UnknownVariableRaised | typecrate/tmath.py:258-261 | a name missing from `variables` raises |
| TMath.TrailingTokensIgnored | typecrate/tmath.py:140-143 | `parse` does not check for `EOF`: `a b` evaluates to `a` |
| TMath.ExprOfFactor | typecrate/tmath.py:180-190 | a factor followed by no binary operator is a whole expression |
| TMath.GroupParse | typecrate/tmath.py:262-271 | `expr` over `(`, a sum, then `(` or `)` returns the sum's value |
| TMath.GroupTokens | typecrate/tmath.py:262-271 | text that tokenizes to a group evaluates to the group's value |
| TMath.GroupClosedByEitherParen | typecrate/tmath.py:270 | `consume` checks only the kind, so `(2+3(` is 5 |
| TMath.UnclosedGroupFails | typecrate/tmath.py:166-168 | `(2+3` fails with "Expected OPERATOR, got EOF" |
| TMath.CallParse | typecrate/tmath.py:229-236 | `expr` over a call whose argument is opened by any operator and closed by a parenthesis returns the function of the argument's value |
| TMath.CallTokens | typecrate/tmath.py:229-236 | text that tokenizes to a call evaluates to the function of the argument |
| TMath.CallDelimitedByAnyOperator | typecrate/tmath.py:231-233 | any operator opens a call's argument and either parenthesis closes it: `sqrt*4(` applies `sqrt` to 4 |
| TMath.MathParser.constructor | typecrate/tmath.py:38-51 | no tokens, index 0, parenthesis count 0, and the given functions |
| TMath.MathParser.Tokenize | typecrate/tmath.py:53-127 | resets the parser; the tokens and the error are those the function `Lex` defines |
| TMath.MathParser.ReadTokens | typecrate/tmath.py:70-127 | the loop, then `EOF`, extends the tokens as `LexRest` defines |
| TMath.MathParser.ReadLexeme | typecrate/tmath.py:72-125 | one pass appends what `NextLexeme` reads and moves past it, or raises its error without appending |
| TMath.MathParser.Consume | typecrate/tmath.py:145-168 | on the expected kind, returns the token and moves past it; otherwise raises "Expected …, got …" and stays put |
| TMath.MathParser.Expr | typecrate/tmath.py:170-190 | computes `ExprAt` from the current token and stops before `EOF` |
| TMath.MathParser.AddTerms | typecrate/tmath.py:182-189 | the loop computes `ExprLoop` |
| TMath.MathParser.Term | typecrate/tmath.py:192-217 | computes `TermAt` from the current token |
| TMath.MathParser.MulFactors | typecrate/tmath.py:204-216 | the loop computes `TermLoop` |
| TMath.MathParser.Factor | typecrate/tmath.py:219-275 | computes `FactorAt` from the current token |
| TMath.MathParser.CallFactor | typecrate/tmath.py:229-236 | the call arm computes `FactorAt` |
| TMath.MathParser.GroupFactor | typecrate/tmath.py:262-271 | the parenthesis arm computes `FactorAt` |
| TMath.MathParser.Parse | typecrate/tmath.py:129-143 | tokenize, then one `expr`: the result is what `Evaluate` defines, which the lemmas above relate to expression trees |
| Fields.IsListOrTuple | typecrate/fields.py:16-22 | truthy exactly for a non-empty list or tuple |
| Fields.CreateListIfNone | typecrate/fields.py:25-31 | `None` gives `[]`; a list or tuple gives its items, a string its characters, a dict its keys; anything else is not iterable, and only that fails |
| Fields.ChoicesDict | typecrate/fields.py:52-80 | whatever it builds has no repeated key |
| Fields.LastWithKey | typecrate/fields.py:69-79 | the position of the last choice with a given key, or -1 when none has it |
| Fields.ChoicesOrder | typecrate/fields.py:67-80 | the `OrderedDict` keeps first-insertion order: its keys are the choices' keys with repeats dropped, each where it first appeared |
| Fields.AddChoiceIsSet | typecrate/fields.py:69-79 | an accepted choice is `ret[key] = value` with its key and stored value |
| Fields.ChoicesLookup | typecrate/fields.py:52-80 | for any key, the built dict holds the value of the last choice with that key (a group's value being its converted dict), and no value when no choice has it |
| Fields.GroupThenPair | typecrate/fields.py:69-79 | a group followed by a plain pair with another key gives two entries in order: the key with the converted group, then the pair |
| Fields.MixedChoices | typecrate/fields.py:66 | `[('Category', ((1, 'First'), (2, 'Second'))), (3, 'Third')]` gives `{'Category': {1: 'First', 2: 'Second'}, 3: 'Third'}` |
| Fields.AddChoice | typecrate/fields.py:69-79 | one choice added: an unhashable scalar raises `Unhashable`; a list or tuple of length n other than 2 raises the unpacking error for n; a group is converted first and its error comes before the key check; an unhashable key raises; on success the key holds the choice itself, the pair's value or the group's converted dict, every other key keeps its value, and no key is repeated |
| Fields.ChoicesErrorSticks | typecrate/fields.py:68-79 | once a choice raises, later choices change nothing |
| Fields.ToChoicesDict | typecrate/fields.py:52-80 | the loop, recursing into groups, returns what `ChoicesDict` defines |
| Fields.SimpleEntries | typecrate/fields.py:69-79 | one entry per simple choice, in order |
| Fields.SimpleChoices | typecrate/fields.py:56-57 | scalars and pairs with distinct keys give one entry each, in order: `c` becomes `c: c` and `(k, v)` becomes `k: v` |
| Fields.GroupChoice | typecrate/fields.py:74-76 | a pair whose value is a list or tuple becomes a nested dict under its key |
| Fields.RepeatedKeyKeepsPosition | typecrate/fields.py:71-79 | a key given again keeps its first position and takes the later value |
| Fields.DocumentedGroup | typecrate/fields.py:58 | the documented group example gives `{'Group': {1: '1st', 2: 2}}` |
| Fields.FlattenChoices | typecrate/fields.py:84-103 | the flattened dict has no repeated key |
| Fields.FlattenIsSetAll | typecrate/fields.py:93-103 | flattening is one run of `ret[k] = v` over the group entries and plain entries, in order, from an empty dict |
| Fields.FlattenLookup | typecrate/fields.py:84-103 | every key holds the value of the last entry that contributes it: the group's own value for a group, the entry's value otherwise; a key nothing contributes is absent |
| Fields.FlattenOrder | typecrate/fields.py:84-103 | the flattened keys are the contributed keys in the order first assigned, each once |
| Fields.FlattenChoicesDict | typecrate/fields.py:94-103 | the nested loops return what `FlattenChoices` defines |
| Fields.AssignAll | typecrate/fields.py:98-99 | the inner loop assigns a group's entries in order, as `SetAll` defines |
| Fields.FlattenWithoutGroups | typecrate/fields.py:88 | a dict without groups flattens to itself |
| Fields.FlattenOneGroup | typecrate/fields.py:89 | a single group flattens to its own entries |
| Fields.FlattenOneLevelOnly | typecrate/fields.py:96-99 | only one level is lifted: a group inside a group stays a value |
| Fields.FlattenKeys | typecrate/fields.py:94-103 | the flattened keys are the keys of the non-group entries and the keys inside the groups, and nothing else |
| Fields.ErrorKey | typecrate/fields.py:115 | the field name, or `non_field` when the name is empty; never empty |
| Fields.ErrorMsg | typecrate/fields.py:106-118 | the error key is the field name or `non_field`, never empty; message and help are passed through |
| Fields.NullMessage | typecrate/fields.py:139 | the message quotes the field name |
| Fields.RequiredValidator | typecrate/fields.py:127-142 | raises exactly for `None` and `Empty`, with the report the error builder makes |
| Fields.NullValidator | typecrate/fields.py:145-163 | raises exactly for `None` and `Null`, with the same report |
| Fields.Defaults | typecrate/fields.py:207-223 | the keyword defaults of the signature |
| Fields.ResolveRequired | typecrate/fields.py:224-225 | `required=None` means no default and not read-only |
| Fields.InitField | typecrate/fields.py:206-260 | the three option conflicts are refused, in order; then the `validators`, `choices` and `value_processor` checks; it succeeds exactly when all pass, with the resolved `required`, a truthy `source` (the class name when none is given), the converted lists, and every other argument stored unchanged |
| Fields.ValidatorListsRefused | typecrate/fields.py:241-242 | any non-empty list of validators is refused, while `[]` passes |
| Fields.DefaultsAccepted | typecrate/fields.py:206-260 | with every keyword at its default, a field is required, named after its class, with no validators or choices |
| Fields.BaseChecks | typecrate/fields.py:262-274 | `required_validator` when required, then `null_validator` when nullable, and nothing else |
| Fields.Customs | typecrate/fields.py:292 | the user's validators, in order, and never a stock check |
| Fields.Field.constructor | typecrate/fields.py:233-256 | every attribute as given, and not yet bound |
| Fields.Field.New | typecrate/fields.py:206-260 | the exception `__init__` raises, or a new unbound field whose attributes are those `InitField` computes |
| Fields.Field.Validators | typecrate/fields.py:282-296 | the stock checks, then the user's validators, then the defaults; the required check is present exactly when required, the null check exactly when nullable |
| Fields.Field.Bind | typecrate/fields.py:298-302 | sets the name and the parent; the source becomes the name only when it was falsy; nothing else changes |
| Fields.BindKeepsInitSource | typecrate/fields.py:234 | a field built by `__init__` has a truthy source, so `bind` never replaces it |
| PyDict.Set | typecrate/fields.py:71 | `d[k] = v` replaces the value of an existing key where it stands, or appends a new entry; no key is ever repeated |
| PyDict.SetThenGet | typecrate/fields.py:79 | after `d[k] = v`, `d[k]` is `v` |
| PyDict.SetKeepsOthers | typecrate/fields.py:79 | `d[k] = v` leaves every other key's value unchanged |
| PyDict.SetHasKey | typecrate/fields.py:79 | `d[k] = v` adds `k` to the keys and removes none |
| PyDict.SetAll | typecrate/fields.py:98-99 | assigning a sequence of entries keeps the keys unique |
| PyDict.SetAllRebuilds | typecrate/fields.py:98-99 | assigning the entries of a dict into an empty one rebuilds it |
| PyDict.SetAllLookup | typecrate/fields.py:98-99 | after the assignments a key holds the last value they gave it, or its old value when none did |
| PyDict.SetAllKeys | typecrate/fields.py:98-99 | the old keys stay first, in order, and each new key is appended once where first assigned |
| PyDict.SetAllAppend | typecrate/fields.py:98-99 | assigning one sequence of entries and then another is assigning the two in order |
| PyDict.SetKeys | typecrate/fields.py:71 | `d[k] = v` keeps the key order and appends `k` exactly when it is new |
| PyDict.SetAllHasKey | typecrate/fields.py:98-99 | assigning all entries of a dict adds exactly its keys |
| PyDict.SetKeepsAll | typecrate/fields.py:79 | `d[k] = v` leaves every other key's lookup unchanged, present or missing |
| PySeq.SliceStrided | typecrate/expression.py:346 | `s[start:stop:step]` takes, in order, the elements at the clamped start plus multiples of the step, exactly while they lie before the clamped stop |
| PyDict.FindKeyAt | typecrate/expression.py:327 | a lookup finds the first entry with that key |
| PySeq.Dedup | typecrate/structure.py:17 | each distinct element exactly once, and nothing else |
| Structure.EArray.constructor | typecrate/structure.py:9-13 | a missing or empty list is replaced by a new empty list; any other list is kept, not copied |
| Structure.EArray.Array | typecrate/structure.py:15-17 | a copy of the list in order; when unique, each distinct element once and nothing else |
| Structure.ViewLength | typecrate/structure.py:17 | a unique view has as many elements as there are distinct elements |
| Structure.EArray.Length | typecrate/structure.py:28-29 | the length of the view: the list's length, or the number of distinct elements when unique |
| Structure.EArray.GetItem | typecrate/structure.py:19-20 | reads from the view: a value exactly for indices in `[-len, len)`, always an element of the list |
| Structure.EArray.SetItem | typecrate/structure.py:22-23 | writes into the list itself, counting negative indices from the end; an out-of-range index raises and changes nothing |
| Structure.EArray.DelItem | typecrate/structure.py:25-26 | removes one element from the list itself; an out-of-range index raises and changes nothing |
| Structure.EArray.Insert | typecrate/structure.py:45-46 | appends to the list; the length grows by 1, or when unique by 1 exactly for a new element |
| Structure.EArray.Add | typecrate/structure.py:31-43 | with a list: a new array with the same flag over a new list `_array + other`; with an array: unique when either is, over the two views joined; anything else gives `None`; `self` is untouched |
| Structure.EArray.IAdd | typecrate/structure.py:31-43 | the same as `+`: a new object, never an update of `self` |
| Structure.ConstructorAliasing | typecrate/structure.py:11-13 | an insertion through the array shows in the caller's list exactly when that list was non-empty |
| Structure.WriteThenRead | typecrate/structure.py:19-23 | on an array that is not unique, `a[i] = v` and then `a[i]` gives `v`; out of range, both raise |
| Structure.AppendCount | typecrate/structure.py:45-46 | appending adds one distinct element exactly when it is new |

## Left out

- `get_attribute`, which `typecrate/expression.py:10` imports from `typecrate.utils`, is not defined in `typecrate/utils.py` as shipped, so its code is not part of this model. The model assumes it looks up a string key in a dict and raises `ValueDoesNotExist` otherwise; every other value has no attributes. Attribute access on objects is left out.
- `is_iterable` is modelled as "is a list". Other iterables (tuples, strings, dicts, generators) are left out of the array steps of `Expression`.
- The `root` argument of `Expression.get` and `handle_array_attr` is carried by the source but never used for a result, so the model drops it.
- Text is ASCII: `str.strip`, `str.isdigit` and `str.isalpha` use the ASCII classes. `int()`'s acceptance of `_` separators and non-ASCII digits is left out.
- Floating point: numbers in `TMath` are exact reals, and `/` is exact division. Rounding and overflow are left out.
- The math functions (`sqrt`, `sin`, …) are a function parameter fixed at construction. Their names are the six registered ones. A domain error they raise becomes `DomainError`.
- `TMath.ModuloByZeroRaised`: Python raises `ZeroDivisionError` (not `ValueError`) for `% 0`. The model reports a distinct `ModuloByZero` error.
- The parser methods require a token list ending in `EOF` and an index inside it, as `parse` always provides. An `IndexError` from calling `expr`, `term`, `factor` or `consume` directly on other states is not modelled.
- `tokenize` and `factor` are split into helper methods (`ReadTokens`, `ReadLexeme`, `ScanNumber`, `ScanName`, `CallFactor`, `GroupFactor`, `AddTerms`, `MulFactors`) that follow the source's inner loops and branches.
- `paren_count` is reset but never used by the source, and the model keeps it only as a field.
- The arithmetic examples use renderings with a blank after each token (`2 + 3 * 4 `). The tokenizer skips blanks, so they read the same tokens.
- Dict keys are compared structurally: Python's `1 == True` and `hash`-based equality across types are left out.
- `warn` and the `parse_source` stub in `typecrate/fields.py` are left out: one only prints, the other has no body.
- `Field` flags (`nullable`, `required`, `read_only`, `write_only`, `optional`) are booleans. Other truthy values for them are not modelled.
- The class name is fixed to `Field`. Subclasses and their own `get_default_validators` are left out. `get_default_validators` is taken as a parameter of `Fields.Field.Validators`.
- `value_processor` is checked with `callable`. Only function values and the `Empty` class are callable in the value model.
- Fields.FlattenLookup: it assumes each group's entries have distinct keys, which every Python `dict` has; the model's `Dict` value could repeat a key, and for such a value the lemma says nothing.
- Fields.ChoicesDict: an unhashable key raises `TypeError` in Python. The model reports it as `Unhashable` when a key is a list, a dict, `Null`, or a tuple holding one of these. Objects with a custom `__hash__` are left out.
- Structure.EArray.Array: Python's `set` order is unspecified. The model picks first-occurrence order, and the contract states only the distinct-elements property. The `TypeError` for unhashable elements in a unique view is left out.
- Structure.EArray.GetItem: slice indices (`a[1:3]`) are left out. Only integer indices are modelled.
- Structure.EArray.SetItem: slice assignment is left out. Only integer indices are modelled.
- Structure.EArray.DelItem: slice deletion is left out. Only integer indices are modelled.
