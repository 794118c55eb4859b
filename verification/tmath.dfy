/**
  The arithmetic evaluator: a tokenizer turning text into numbers, operators,
  function names and variables, and a recursive-descent evaluator over the
  tokens (`expr` for `+`/`-`, `term` for `*`/`/`/`%`, `factor` for the rest).
  Numbers are exact reals; the six math functions are a parameter.
*/
module TMath {
  import opened Wrappers
  import opened PyText

  /** `MToken`: the kind of a token. */
  datatype Kind = NumberKind | OperatorKind | FunctionKind | VariableKind | EOFKind

  datatype Token =
    | Number(n: real)
    | Operator(op: char)
    | Function(name: string)
    | Variable(name: string)
    | EOF

  function KindOf(t: Token): Kind {
    match t
    case Number(_) => NumberKind
    case Operator(_) => OperatorKind
    case Function(_) => FunctionKind
    case Variable(_) => VariableKind
    case EOF => EOFKind
  }

  /** `MOperator`: the seven operator characters. */
  predicate IsOperator(c: char) {
    c == '+' || c == '-' || c == '*' || c == '/' || c == '%' || c == '(' || c == ')'
  }

  /** The names registered in `MathParser.functions`. */
  const FunctionNames: set<string> := {"sqrt", "sin", "cos", "tan", "log", "exp"}

  /** Letters, `@`, `{` and `}` make up function and variable names. */
  predicate IsNameChar(c: char) {
    IsLetter(c) || c == '@' || c == '{' || c == '}'
  }

  predicate IsNumberChar(c: char) {
    IsDigit(c) || c == '.'
  }

  /** The characters the tokenizer accepts somewhere. */
  predicate Allowed(c: char) {
    IsNumberChar(c) || IsOperator(c) || IsNameChar(c) || c == ' ' || c == '\t'
  }

  /** Every `ValueError` (and the one `ZeroDivisionError`) the evaluator raises. */
  datatype MathError =
    | EmptyInput
    | UnknownCharacter(c: char)
    | InvalidNumber(text: string)
    | Expected(expected: Kind, got: Kind)
    | DivisionByZero
    | ModuloByZero
    | UnknownVariable(name: string)
    | UnexpectedToken(got: Kind)
    | DomainError(fn: string)

  // ---------------------------------------------------------------------------
  // Tokenizer
  // ---------------------------------------------------------------------------

  /** How many characters at the front of `s` belong to a number (digits and dots). */
  function NumberRun(s: string): (n: nat)
    ensures n <= |s|
    ensures forall k :: 0 <= k < n ==> IsNumberChar(s[k])
    ensures n == |s| || !IsNumberChar(s[n])
    decreases |s|
  {
    if s != [] && IsNumberChar(s[0]) then 1 + NumberRun(s[1..]) else 0
  }

  /** How many characters at the front of `s` belong to a name. */
  function NameRun(s: string): (n: nat)
    ensures n <= |s|
    ensures forall k :: 0 <= k < n ==> IsNameChar(s[k])
    ensures n == |s| || !IsNameChar(s[n])
    decreases |s|
  {
    if s != [] && IsNameChar(s[0]) then 1 + NameRun(s[1..]) else 0
  }

  function Pow10(n: nat): (r: real)
    ensures r >= 1.0
  {
    if n == 0 then 1.0 else 10.0 * Pow10(n - 1)
  }

  /**
    The number a run of digits and dots denotes: `int(text)` without a dot,
    `float(text)` (taken exactly) with one dot, and the `ValueError` of
    `float` with two or more.
  */
  function NumberValue(text: string): (r: Option<real>)
    requires forall k :: 0 <= k < |text| ==> IsNumberChar(text[k])
  {
    if '.' !in text then
      DotFreeDigits(text);
      Some(DigitsValue(text) as real)
    else
      var d := FirstDot(text);
      var whole, fraction := text[..d], text[d + 1..];
      if '.' in fraction then None
      else
        DotFreeDigits(whole);
        DotFreeDigits(fraction);
        Some(DigitsValue(whole) as real + DigitsValue(fraction) as real / Pow10(|fraction|))
  }

  /** A run of digits and dots without a dot is a run of digits. */
  lemma DotFreeDigits(s: string)
    requires forall k :: 0 <= k < |s| ==> IsNumberChar(s[k])
    requires '.' !in s
    ensures forall k :: 0 <= k < |s| ==> IsDigit(s[k])
  {
    forall k | 0 <= k < |s| ensures IsDigit(s[k]) {
      assert s[k] in s;
    }
  }

  function FirstDot(text: string): (d: nat)
    requires '.' in text
    ensures d < |text| && text[d] == '.' && '.' !in text[..d]
    decreases |text|
  {
    if text[0] == '.' then 0
    else
      assert '.' in text[1..] by { assert text == [text[0]] + text[1..]; }
      var d := 1 + FirstDot(text[1..]);
      assert text[..d] == [text[0]] + text[1..][..d - 1];
      d
  }

  /** What `tokenize` leaves in `self.tokens`, and the error it raises, if any. */
  datatype LexOutcome = LexOutcome(tokens: seq<Token>, error: Option<MathError>)

  /** The token a name becomes: a function when registered, a variable otherwise. */
  function NameToken(name: string): (t: Token)
    ensures t.Function? <==> name in FunctionNames
  {
    if name in FunctionNames then Function(name) else Variable(name)
  }

  /** What one pass of `tokenize`'s loop does: append some tokens (none for a blank) and move on, or raise. */
  datatype Lexeme = Read(emitted: seq<Token>, width: nat) | Fail(error: MathError)

  /**
    One pass of `tokenize`'s loop at the front of `rest`: a number (a digit,
    or a dot before a digit, then the whole run of digits and dots), an
    operator, a name (the whole run of name characters), a blank, or an
    unknown character.
  */
  function NextLexeme(rest: string): (l: Lexeme)
    requires rest != []
    ensures l.Read? ==> 0 < l.width <= |rest| && |l.emitted| <= 1 && NoEOF(l.emitted)
    ensures l.Read? ==> forall k :: 0 <= k < l.width ==> Allowed(rest[k])
    ensures l.Fail? ==> l.error != EmptyInput
  {
    var c := rest[0];
    if IsDigit(c) || (c == '.' && |rest| > 1 && IsDigit(rest[1])) then
      var n := NumberRun(rest);
      match NumberValue(rest[..n])
      case None => Fail(InvalidNumber(rest[..n]))
      case Some(v) => Read([Number(v)], n)
    else if IsOperator(c) then Read([Operator(c)], 1)
    else if IsNameChar(c) then
      var n := NameRun(rest);
      Read([NameToken(rest[..n])], n)
    else if c == ' ' || c == '\t' then Read([], 1)
    else Fail(UnknownCharacter(c))
  }

  /** The `while i < len(expression)` loop of `tokenize` on the text still to read, with the tokens so far. */
  function LexRest(rest: string, acc: seq<Token>): LexOutcome
    decreases |rest|
  {
    if rest == [] then LexOutcome(acc + [EOF], None)
    else
      match NextLexeme(rest)
      case Fail(e) => LexOutcome(acc, Some(e))
      case Read(emitted, n) => LexRest(rest[n..], acc + emitted)
  }

  /** `tokenize(expression)`: empty or blank text is refused before anything is read. */
  function Lex(expression: string): LexOutcome {
    if Strip(expression) == [] then LexOutcome([], Some(EmptyInput)) else LexRest(expression, [])
  }

  /** A token list as `tokenize` leaves it: exactly one `EOF`, at the end. */
  predicate Ended(tokens: seq<Token>) {
    |tokens| > 0 && tokens[|tokens| - 1] == EOF
  }

  predicate NoEOF(tokens: seq<Token>) {
    forall k :: 0 <= k < |tokens| ==> tokens[k] != EOF
  }

  /** The tokens already collected stay in front. */
  lemma {:induction false} LexRestKeeps(rest: string, acc: seq<Token>)
    ensures var o := LexRest(rest, acc); |acc| <= |o.tokens| && o.tokens[..|acc|] == acc
    decreases |rest|
  {
    if rest != [] && NextLexeme(rest).Read? {
      var l := NextLexeme(rest);
      LexRestKeeps(rest[l.width..], acc + l.emitted);
      assert (acc + l.emitted)[..|acc|] == acc;
    }
  }

  /** `EOF` is appended once, at the end, when no error is raised. */
  lemma {:induction false} LexRestEOF(rest: string, acc: seq<Token>)
    requires NoEOF(acc)
    ensures var o := LexRest(rest, acc);
      o.error.None? ==> Ended(o.tokens) && NoEOF(o.tokens[..|o.tokens| - 1])
    decreases |rest|
  {
    if rest == [] {
      assert (acc + [EOF])[..|acc|] == acc;
    } else {
      var l := NextLexeme(rest);
      if l.Read? {
        assert NoEOF(acc + l.emitted);
        LexRestEOF(rest[l.width..], acc + l.emitted);
      }
    }
  }

  /** The loop itself never reports empty input: only the blank check before it does. */
  lemma {:induction false} LexRestNotEmpty(rest: string, acc: seq<Token>)
    ensures LexRest(rest, acc).error != Some(EmptyInput)
    decreases |rest|
  {
    if rest != [] {
      var l := NextLexeme(rest);
      if l.Read? {
        LexRestNotEmpty(rest[l.width..], acc + l.emitted);
      }
    }
  }

  /** Text read without error holds only characters the tokenizer knows. */
  lemma {:induction false} LexRestAlphabet(rest: string, acc: seq<Token>)
    ensures LexRest(rest, acc).error.None? ==> forall k :: 0 <= k < |rest| ==> Allowed(rest[k])
    decreases |rest|
  {
    if rest != [] && NextLexeme(rest).Read? {
      var l := NextLexeme(rest);
      LexRestAlphabet(rest[l.width..], acc + l.emitted);
      assert forall k :: l.width <= k < |rest| ==> rest[k] == rest[l.width..][k - l.width];
    }
  }

  /** A successful `tokenize` ends its list with exactly one `EOF` token. */
  lemma LexEndsWithEOF(expression: string)
    ensures var o := Lex(expression);
      o.error.None? ==> Ended(o.tokens) && forall k :: 0 <= k < |o.tokens| - 1 ==> o.tokens[k] != EOF
  {
    if Strip(expression) != [] {
      LexRestEnded(expression);
    }
  }

  lemma LexRestEnded(expression: string)
    ensures var o := LexRest(expression, []);
      o.error.None? ==> Ended(o.tokens) && forall k :: 0 <= k < |o.tokens| - 1 ==> o.tokens[k] != EOF
  {
    LexRestEOF(expression, []);
    var o := LexRest(expression, []);
    if o.error.None? {
      assert forall k :: 0 <= k < |o.tokens| - 1 ==> o.tokens[k] == o.tokens[..|o.tokens| - 1][k];
    }
  }

  /** Empty input is reported exactly when the text is blank. */
  lemma LexEmptyInput(expression: string)
    ensures Lex(expression).error == Some(EmptyInput)
        <==> forall k :: 0 <= k < |expression| ==> IsSpace(expression[k])
  {
    StripSpec(expression);
    if Strip(expression) != [] {
      LexRestNotEmpty(expression, []);
    }
  }

  /** The information separators `\x1c` to `\x1f` are blank to `strip`, so text made of them is empty input. */
  lemma LexSeparatorsBlank()
    ensures Lex("\U{001C}\U{001D}\U{001E}\U{001F}").error == Some(EmptyInput)
  {
    LexEmptyInput("\U{001C}\U{001D}\U{001E}\U{001F}");
  }

  /** A successful `tokenize` has read only characters it knows. */
  lemma LexAlphabet(expression: string)
    ensures Lex(expression).error.None? ==> forall k :: 0 <= k < |expression| ==> Allowed(expression[k])
  {
    if Strip(expression) != [] {
      LexRestAlphabet(expression, []);
    }
  }

  /** A character the tokenizer does not know stops it right after the name before it. */
  lemma LexNameThenUnknown(name: string, rest: string, acc: seq<Token>)
    requires IsName(name) && |rest| > 0 && !Allowed(rest[0])
    ensures LexRest(name + rest, acc) == LexOutcome(acc + [NameToken(name)], Some(UnknownCharacter(rest[0])))
  {
    var e := name + rest;
    NameRunOf(name, rest);
    assert e[..|name|] == name && e[|name|..] == rest;
    assert !IsDigit(e[0]) && e[0] != '.' && !IsOperator(e[0]);
  }

  lemma LexStarts(e: string)
    requires |e| > 0 && !IsSpace(e[0])
    ensures Lex(e) == LexRest(e, [])
  {
    StripSpec(e);
  }

  /** `_` is not part of a name, so `unknown_func(4)` fails after reading the variable `unknown`. */
  lemma LexRejectsUnderscore(e: string)
    requires e == "unknown_func(4)"
    ensures Lex(e) == LexOutcome([Variable("unknown")], Some(UnknownCharacter('_')))
  {
    assert e == "unknown" + "_func(4)";
    assert IsName("unknown") && "unknown" !in FunctionNames;
    LexNameThenUnknown("unknown", "_func(4)", []);
    LexStarts(e);
  }


  // ---------------------------------------------------------------------------
  // Printing tokens back to text
  // ---------------------------------------------------------------------------

  predicate IsName(name: string) {
    name != [] && forall k :: 0 <= k < |name| ==> IsNameChar(name[k])
  }

  /** A token the tokenizer can produce from its own text: naturals, operators, registered functions, other names. */
  predicate Printable(t: Token) {
    match t
    case Number(n) => n >= 0.0 && n == n.Floor as real
    case Operator(c) => IsOperator(c)
    case Function(name) => name in FunctionNames
    case Variable(name) => IsName(name) && name !in FunctionNames
    case EOF => false
  }

  lemma FunctionNamesAreNames()
    ensures forall name :: name in FunctionNames ==> IsName(name)
  {
    assert IsName("sqrt") && IsName("sin") && IsName("cos");
    assert IsName("tan") && IsName("log") && IsName("exp");
  }

  /** The text of one printable token. */
  function TokenText(t: Token): string
    requires Printable(t)
  {
    match t
    case Number(n) => ShowNat(n.Floor)
    case Operator(c) => [c]
    case Function(name) => name
    case Variable(name) => name
  }

  /** The text of a printable token is not blank at its start. */
  lemma TokenTextStart(t: Token)
    requires Printable(t)
    ensures |TokenText(t)| > 0 && !IsSpace(TokenText(t)[0])
  {
    match t
    case Number(n) =>
    case Operator(c) =>
    case Function(name) =>
      FunctionNamesAreNames();
      assert IsNameChar(name[0]);
    case Variable(name) =>
      assert IsNameChar(name[0]);
  }

  /** Printable tokens written out, each followed by a space. */
  function Render(tokens: seq<Token>): string
    requires forall k :: 0 <= k < |tokens| ==> Printable(tokens[k])
    decreases |tokens|
  {
    if tokens == [] then [] else TokenText(tokens[0]) + " " + Render(tokens[1..])
  }

  lemma {:induction false} NumberRunOf(d: string, rest: string)
    requires forall k :: 0 <= k < |d| ==> IsNumberChar(d[k])
    requires rest == [] || !IsNumberChar(rest[0])
    ensures NumberRun(d + rest) == |d|
    decreases |d|
  {
    if d != [] {
      NumberRunOf(d[1..], rest);
      assert (d + rest)[1..] == d[1..] + rest;
    } else {
      assert d + rest == rest;
    }
  }

  lemma {:induction false} NameRunOf(name: string, rest: string)
    requires forall k :: 0 <= k < |name| ==> IsNameChar(name[k])
    requires rest == [] || !IsNameChar(rest[0])
    ensures NameRun(name + rest) == |name|
    decreases |name|
  {
    if name != [] {
      NameRunOf(name[1..], rest);
      assert (name + rest)[1..] == name[1..] + rest;
    } else {
      assert name + rest == rest;
    }
  }

  /** A blank is skipped. */
  lemma LexBlank(rest: string, acc: seq<Token>)
    ensures LexRest(" " + rest, acc) == LexRest(rest, acc)
  {
    var s := " " + rest;
    assert NextLexeme(s) == Read([], 1);
    assert s[1..] == rest && acc + [] == acc;
  }

  lemma LexNumberText(k: nat, rest: string, acc: seq<Token>)
    ensures LexRest(ShowNat(k) + " " + rest, acc) == LexRest(rest, acc + [Number(k as real)])
  {
    var text := ShowNat(k);
    var s := text + " " + rest;
    NumberRunOf(text, " " + rest);
    assert s == text + (" " + rest);
    assert s[..|text|] == text;
    assert '.' !in text;
    ShowNatRoundTrip(k);
    assert NumberValue(text) == Some(k as real);
    assert NextLexeme(s) == Read([Number(k as real)], |text|);
    assert s[|text|..] == " " + rest;
    LexBlank(rest, acc + [Number(k as real)]);
  }

  /** One dot makes `float()`: `2.5` and `.5` read as those decimals. */
  lemma DecimalNumbers()
    ensures NumberValue("2.5") == Some(2.5)
    ensures NumberValue(".5") == Some(0.5)
  {
    assert FirstDot("2.5") == 1 by { assert "2.5"[1..] == ".5"; }
    assert "2.5"[..1] == "2" && "2.5"[2..] == "5" && "5"[..0] == [] && "2"[..0] == [];
    assert FirstDot(".5") == 0;
    assert ".5"[..0] == [] && ".5"[1..] == "5";
  }

  /** A second dot is `float()`'s `ValueError`. */
  lemma SecondDotInvalid()
    ensures NumberValue("1.2.3") == None
  {
    var e := "1.2.3";
    assert FirstDot(e) == 1 by { assert e[1..] == ".2.3"; }
    assert e[2..] == "2.3" && '.' in "2.3" by { assert "2.3"[1] == '.'; }
  }

  /** A run of digits and dots that `float()` refuses raises on the whole run before emitting anything. */
  lemma InvalidNumberRaises(e: string)
    requires |e| > 0 && IsDigit(e[0]) && forall k :: 0 <= k < |e| ==> IsNumberChar(e[k])
    requires NumberValue(e).None?
    ensures Lex(e) == LexOutcome([], Some(InvalidNumber(e)))
  {
    assert e[0..|e|] == e;
    assert e[0..] == e;
    LexNumberStep(e, 0, |e|);
    assert NextLexeme(e) == Fail(InvalidNumber(e));
    assert LexRest(e, []) == LexOutcome([], Some(InvalidNumber(e)));
    assert !IsSpace(e[0]);
    LexStarts(e);
  }

  /** `tokenize("1.2.3")` raises on the whole run. */
  lemma SecondDotRaises()
    ensures Lex("1.2.3") == LexOutcome([], Some(InvalidNumber("1.2.3")))
  {
    SecondDotInvalid();
    InvalidNumberRaises("1.2.3");
  }

  lemma LexNameText(name: string, rest: string, acc: seq<Token>)
    requires IsName(name)
    ensures LexRest(name + " " + rest, acc) == LexRest(rest, acc + [NameToken(name)])
  {
    var s := name + " " + rest;
    NameRunOf(name, " " + rest);
    assert s == name + (" " + rest);
    assert s[..|name|] == name;
    assert !IsDigit(s[0]) && s[0] != '.' && !IsOperator(s[0]);
    assert NextLexeme(s) == Read([NameToken(name)], |name|);
    assert s[|name|..] == " " + rest;
    LexBlank(rest, acc + [NameToken(name)]);
  }

  /** Reading a printable token's text and the space after it yields that token. */
  lemma LexToken(t: Token, rest: string, acc: seq<Token>)
    requires Printable(t)
    ensures LexRest(TokenText(t) + " " + rest, acc) == LexRest(rest, acc + [t])
  {
    match t
    case Number(n) =>
      LexNumberText(n.Floor, rest, acc);
    case Operator(c) =>
      var s := [c] + " " + rest;
      assert NextLexeme(s) == Read([t], 1);
      assert s[1..] == " " + rest;
      LexBlank(rest, acc + [t]);
    case Function(name) =>
      FunctionNamesAreNames();
      LexNameText(name, rest, acc);
    case Variable(name) =>
      LexNameText(name, rest, acc);
  }

  lemma {:induction false} LexRender(tokens: seq<Token>, acc: seq<Token>)
    requires forall k :: 0 <= k < |tokens| ==> Printable(tokens[k])
    ensures LexRest(Render(tokens), acc) == LexOutcome(acc + tokens + [EOF], None)
    decreases |tokens|
  {
    if tokens == [] {
      assert acc + tokens == acc;
    } else {
      LexToken(tokens[0], Render(tokens[1..]), acc);
      LexRender(tokens[1..], acc + [tokens[0]]);
      assert acc + [tokens[0]] + tokens[1..] == acc + tokens;
    }
  }

  /** Tokenizing the printed form of printable tokens gives them back, followed by `EOF`. */
  lemma LexRoundTrip(tokens: seq<Token>)
    requires |tokens| > 0
    requires forall k :: 0 <= k < |tokens| ==> Printable(tokens[k])
    ensures Lex(Render(tokens)) == LexOutcome(tokens + [EOF], None)
  {
    var s := Render(tokens);
    var text := TokenText(tokens[0]);
    TokenTextStart(tokens[0]);
    assert s[0] == text[0];
    LexStarts(s);
    LexRender(tokens, []);
    assert [] + tokens == tokens;
  }

  // ---------------------------------------------------------------------------
  // Evaluator
  // ---------------------------------------------------------------------------

  /** The registered math functions, applied by name; `None` is a math domain error. */
  type MathFn = (string, real) -> Option<real>

  /** The `variables` mapping. */
  type Env = map<string, real>

  /** Python's `%`: the remainder takes the sign of the divisor. */
  function FloorMod(a: real, b: real): (r: real)
    requires b != 0.0
  {
    a - b * ((a / b).Floor as real)
  }

  /** `a % b` lies between 0 and `b`, and `a` is a whole multiple of `b` away from it. */
  lemma FloorModSpec(a: real, b: real)
    requires b != 0.0
    ensures var r := FloorMod(a, b);
      && (b > 0.0 ==> 0.0 <= r < b)
      && (b < 0.0 ==> b < r <= 0.0)
      && a == b * ((a / b).Floor as real) + r
  {
    var x := a / b;
    var q := x.Floor as real;
    assert q <= x < q + 1.0;
    assert b * x == a;
    FloorBounds(a, b, x, q);
    assert FloorMod(a, b) == a - b * q;
  }

  /** The multiple of `b` just below (or, for negative `b`, just above) `a = b * x`. */
  lemma FloorBounds(a: real, b: real, x: real, q: real)
    requires b != 0.0 && b * x == a && q <= x < q + 1.0
    ensures b > 0.0 ==> b * q <= a < b * q + b
    ensures b < 0.0 ==> b * q + b < a <= b * q
  {
    var d := x - q;
    assert 0.0 <= d < 1.0;
    assert a == b * q + b * d;
    FractionScale(b, d);
  }

  lemma FractionScale(b: real, d: real)
    requires 0.0 <= d < 1.0
    ensures b > 0.0 ==> 0.0 <= b * d < b
    ensures b < 0.0 ==> b < b * d <= 0.0
  {
    assert b - b * d == b * (1.0 - d);
  }

  /** What an evaluation step returns: the value and the index of the next unread token. */
  type Outcome = Result<(real, nat), MathError>

  predicate IsAddOp(t: Token) {
    t.Operator? && (t.op == '+' || t.op == '-')
  }

  predicate IsMulOp(t: Token) {
    t.Operator? && (t.op == '*' || t.op == '/' || t.op == '%')
  }

  /** `expr`: a term, then any number of `+`/`-` terms, folded from the left. */
  function ExprAt(fns: MathFn, env: Env, toks: seq<Token>, i: nat): (r: Outcome)
    requires Ended(toks) && i < |toks|
    ensures r.Ok? ==> i < r.value.1 < |toks|
    decreases |toks| - i, 2
  {
    match TermAt(fns, env, toks, i)
    case Err(e) => Err(e)
    case Ok((v, j)) => ExprLoop(fns, env, toks, j, v)
  }

  /** The `while` loop of `expr`, entered with `result == acc`. */
  function ExprLoop(fns: MathFn, env: Env, toks: seq<Token>, i: nat, acc: real): (r: Outcome)
    requires Ended(toks) && i < |toks|
    ensures r.Ok? ==> i <= r.value.1 < |toks|
    decreases |toks| - i, 2
  {
    if IsAddOp(toks[i]) then
      match TermAt(fns, env, toks, i + 1)
      case Err(e) => Err(e)
      case Ok((v, j)) => ExprLoop(fns, env, toks, j, if toks[i].op == '+' then acc + v else acc - v)
    else Ok((acc, i))
  }

  /** `term`: a factor, then any number of `*`, `/`, `%` factors, folded from the left. */
  function TermAt(fns: MathFn, env: Env, toks: seq<Token>, i: nat): (r: Outcome)
    requires Ended(toks) && i < |toks|
    ensures r.Ok? ==> i < r.value.1 < |toks|
    decreases |toks| - i, 1
  {
    match FactorAt(fns, env, toks, i)
    case Err(e) => Err(e)
    case Ok((v, j)) => TermLoop(fns, env, toks, j, v)
  }

  /** The `while` loop of `term`: a zero divisor raises for `/` and for `%`. */
  function TermLoop(fns: MathFn, env: Env, toks: seq<Token>, i: nat, acc: real): (r: Outcome)
    requires Ended(toks) && i < |toks|
    ensures r.Ok? ==> i <= r.value.1 < |toks|
    decreases |toks| - i, 1
  {
    if IsMulOp(toks[i]) then
      match FactorAt(fns, env, toks, i + 1)
      case Err(e) => Err(e)
      case Ok((v, j)) =>
        match MulStep(toks[i].op, acc, v)
        case Err(e) => Err(e)
        case Ok(w) => TermLoop(fns, env, toks, j, w)
    else Ok((acc, i))
  }

  /** One `*=`, `/=` or `%=` of `term`: `/` checks its divisor, `%` fails as Python's `%` does. */
  function MulStep(op: char, acc: real, v: real): Result<real, MathError> {
    if op == '*' then Ok(acc * v)
    else if v == 0.0 then Err(if op == '/' then DivisionByZero else ModuloByZero)
    else Ok(if op == '/' then acc / v else FloorMod(acc, v))
  }

  /**
    `factor`: a function call, a unary sign, a number, a variable or a group.
    The tokens that open and close a call or a group are consumed by kind
    only, so any operator serves as `(` after a function name and as `)`.
  */
  function FactorAt(fns: MathFn, env: Env, toks: seq<Token>, i: nat): (r: Outcome)
    requires Ended(toks) && i < |toks|
    ensures r.Ok? ==> i < r.value.1 < |toks|
    decreases |toks| - i, 0
  {
    var t := toks[i];
    if t.Function? then
      if !toks[i + 1].Operator? then Err(Expected(OperatorKind, KindOf(toks[i + 1])))
      else match ExprAt(fns, env, toks, i + 2)
        case Err(e) => Err(e)
        case Ok((arg, j)) =>
          if !toks[j].Operator? then Err(Expected(OperatorKind, KindOf(toks[j])))
          else match fns(t.name, arg)
            case None => Err(DomainError(t.name))
            case Some(v) => Ok((v, j + 1))
    else if IsAddOp(t) then
      match FactorAt(fns, env, toks, i + 1)
      case Err(e) => Err(e)
      case Ok((v, j)) => Ok((if t.op == '+' then v else -v, j))
    else if t.Number? then Ok((t.n, i + 1))
    else if t.Variable? then
      if t.name in env then Ok((env[t.name], i + 1)) else Err(UnknownVariable(t.name))
    else if t == Operator('(') then
      match ExprAt(fns, env, toks, i + 1)
      case Err(e) => Err(e)
      case Ok((v, j)) =>
        if !toks[j].Operator? then Err(Expected(OperatorKind, KindOf(toks[j]))) else Ok((v, j + 1))
    else Err(UnexpectedToken(KindOf(t)))
  }

  /** `MathParser.parse`: tokenize, then one `expr` from the first token; what follows it is ignored. */
  function Evaluate(fns: MathFn, expression: string, variables: Option<Env>): Result<real, MathError> {
    var env := if variables.None? then map[] else variables.value;
    var o := Lex(expression);
    if o.error.Some? then Err(o.error.value)
    else
      LexEndsWithEOF(expression);
      match ExprAt(fns, env, o.tokens, 0)
      case Err(e) => Err(e)
      case Ok((v, _)) => Ok(v)
  }

  // ---------------------------------------------------------------------------
  // The grammar the evaluator implements, as a tree
  // ---------------------------------------------------------------------------

  datatype AddOp = Plus | Minus
  datatype MulOp = Times | Over | Mod

  /** A sum of products of atoms: the precedence levels of `expr`, `term` and `factor`. */
  datatype Sum = Sum(head: Product, tail: seq<(AddOp, Product)>)
  datatype Product = Product(head: Atom, tail: seq<(MulOp, Atom)>)
  datatype Atom =
    | Lit(n: real)
    | Ref(name: string)
    | Signed(sign: AddOp, arg: Atom)
    | Group(inner: Sum)
    | Call(fn: string, param: Sum)

  function AddChar(op: AddOp): char {
    if op == Plus then '+' else '-'
  }

  function MulChar(op: MulOp): char {
    match op
    case Times => '*'
    case Over => '/'
    case Mod => '%'
  }

  /** The tokens of a tree, with `(` and `)` around groups and call arguments. */
  function EmitSum(s: Sum): seq<Token>
    decreases s, 2
  {
    EmitProduct(s.head) + EmitSumTail(s, 0)
  }

  function EmitSumTail(s: Sum, k: nat): seq<Token>
    requires k <= |s.tail|
    decreases s, 1, |s.tail| - k
  {
    if k == |s.tail| then []
    else [Operator(AddChar(s.tail[k].0))] + EmitProduct(s.tail[k].1) + EmitSumTail(s, k + 1)
  }

  function EmitProduct(p: Product): seq<Token>
    decreases p, 2
  {
    EmitAtom(p.head) + EmitProductTail(p, 0)
  }

  function EmitProductTail(p: Product, k: nat): seq<Token>
    requires k <= |p.tail|
    decreases p, 1, |p.tail| - k
  {
    if k == |p.tail| then []
    else [Operator(MulChar(p.tail[k].0))] + EmitAtom(p.tail[k].1) + EmitProductTail(p, k + 1)
  }

  function EmitAtom(a: Atom): seq<Token>
    decreases a, 0
  {
    match a
    case Lit(n) => [Number(n)]
    case Ref(name) => [Variable(name)]
    case Signed(sign, arg) => [Operator(AddChar(sign))] + EmitAtom(arg)
    case Group(inner) => [Operator('(')] + EmitSum(inner) + [Operator(')')]
    case Call(fn, param) => [Function(fn), Operator('(')] + EmitSum(param) + [Operator(')')]
  }

  /** The value of a tree: left to right, each level folded from the left, the first error wins. */
  function SumValue(fns: MathFn, env: Env, s: Sum): Result<real, MathError>
    decreases s, 2
  {
    match ProductValue(fns, env, s.head)
    case Err(e) => Err(e)
    case Ok(v) => SumFold(fns, env, s, 0, v)
  }

  function SumFold(fns: MathFn, env: Env, s: Sum, k: nat, acc: real): Result<real, MathError>
    requires k <= |s.tail|
    decreases s, 1, |s.tail| - k
  {
    if k == |s.tail| then Ok(acc)
    else match ProductValue(fns, env, s.tail[k].1)
      case Err(e) => Err(e)
      case Ok(v) => SumFold(fns, env, s, k + 1, if s.tail[k].0 == Plus then acc + v else acc - v)
  }

  function ProductValue(fns: MathFn, env: Env, p: Product): Result<real, MathError>
    decreases p, 2
  {
    match AtomValue(fns, env, p.head)
    case Err(e) => Err(e)
    case Ok(v) => ProductFold(fns, env, p, 0, v)
  }

  function ProductFold(fns: MathFn, env: Env, p: Product, k: nat, acc: real): Result<real, MathError>
    requires k <= |p.tail|
    decreases p, 1, |p.tail| - k
  {
    if k == |p.tail| then Ok(acc)
    else match AtomValue(fns, env, p.tail[k].1)
      case Err(e) => Err(e)
      case Ok(v) =>
        match MulStep(MulChar(p.tail[k].0), acc, v)
        case Err(e) => Err(e)
        case Ok(w) => ProductFold(fns, env, p, k + 1, w)
  }

  function AtomValue(fns: MathFn, env: Env, a: Atom): Result<real, MathError>
    decreases a, 0
  {
    match a
    case Lit(n) => Ok(n)
    case Ref(name) => if name in env then Ok(env[name]) else Err(UnknownVariable(name))
    case Signed(sign, arg) => SignValue(sign, AtomValue(fns, env, arg))
    case Group(inner) => SumValue(fns, env, inner)
    case Call(fn, param) => CallValue(fns, fn, SumValue(fns, env, param))
  }

  /** A unary sign applied to an evaluated operand. */
  function SignValue(sign: AddOp, r: Result<real, MathError>): Result<real, MathError> {
    match r
    case Err(e) => Err(e)
    case Ok(v) => Ok(if sign == Plus then v else -v)
  }

  /** A registered function applied to an evaluated argument. */
  function CallValue(fns: MathFn, fn: string, r: Result<real, MathError>): Result<real, MathError> {
    match r
    case Err(e) => Err(e)
    case Ok(v) => if fns(fn, v).None? then Err(DomainError(fn)) else Ok(fns(fn, v).value)
  }

  // ---------------------------------------------------------------------------
  // The evaluator computes the value of the tree it reads
  // ---------------------------------------------------------------------------

  /** `w` occurs in `toks` from index `i`. */
  predicate At(toks: seq<Token>, i: nat, w: seq<Token>) {
    i + |w| <= |toks| && forall m :: 0 <= m < |w| ==> toks[i + m] == w[m]
  }

  lemma AtSplit(toks: seq<Token>, i: nat, u: seq<Token>, v: seq<Token>)
    requires At(toks, i, u + v)
    ensures At(toks, i, u) && At(toks, i + |u|, v)
  {
    assert forall m :: 0 <= m < |u| ==> (u + v)[m] == u[m];
    assert forall m :: 0 <= m < |v| ==> (u + v)[|u| + m] == v[m];
  }

  lemma AtHead(toks: seq<Token>, i: nat, w: seq<Token>)
    requires At(toks, i, w) && |w| > 0
    ensures toks[i] == w[0]
  {
    assert toks[i + 0] == w[0];
  }

  lemma AtIndex(toks: seq<Token>, i: nat, w: seq<Token>, m: nat)
    requires At(toks, i, w) && m < |w|
    ensures toks[i + m] == w[m]
  {
  }

  /** An evaluation step's outcome for a value that ends before token `j`. */
  function Attach(r: Result<real, MathError>, j: nat): Outcome {
    match r
    case Ok(v) => Ok((v, j))
    case Err(e) => Err(e)
  }

  /** A token that ends an expression: anything but a binary operator. */
  predicate EndsSum(t: Token) {
    !IsAddOp(t) && !IsMulOp(t)
  }

  lemma SumTailHead(s: Sum, k: nat)
    requires k < |s.tail|
    ensures |EmitSumTail(s, k)| > 0 && IsAddOp(EmitSumTail(s, k)[0])
  {
  }

  lemma ProductTailHead(p: Product, k: nat)
    requires k < |p.tail|
    ensures |EmitProductTail(p, k)| > 0 && IsMulOp(EmitProductTail(p, k)[0])
  {
  }

  lemma FactorSigned(fns: MathFn, env: Env, toks: seq<Token>, i: nat, j: nat, sign: AddOp, r: Result<real, MathError>)
    requires Ended(toks) && i < j < |toks|
    requires toks[i] == Operator(AddChar(sign))
    requires FactorAt(fns, env, toks, i + 1) == Attach(r, j)
    ensures FactorAt(fns, env, toks, i) == Attach(SignValue(sign, r), j)
  {
  }

  /** A group may be closed by any operator token, since `consume` checks only the kind. */
  lemma FactorGroup(fns: MathFn, env: Env, toks: seq<Token>, i: nat, j: nat, r: Result<real, MathError>)
    requires Ended(toks) && i < j < |toks| - 1
    requires toks[i] == Operator('(') && toks[j].Operator?
    requires ExprAt(fns, env, toks, i + 1) == Attach(r, j)
    ensures FactorAt(fns, env, toks, i) == Attach(r, j + 1)
  {
  }

  /** Any operator token may open and close a call's argument. */
  lemma FactorCall(fns: MathFn, env: Env, toks: seq<Token>, i: nat, j: nat, fn: string, r: Result<real, MathError>)
    requires Ended(toks) && i + 1 < j < |toks| - 1
    requires toks[i] == Function(fn) && toks[i + 1].Operator? && toks[j].Operator?
    requires ExprAt(fns, env, toks, i + 2) == Attach(r, j)
    ensures FactorAt(fns, env, toks, i) == Attach(CallValue(fns, fn, r), j + 1)
  {
  }

  lemma AtomParseLit(fns: MathFn, env: Env, toks: seq<Token>, i: nat, n: real)
    requires Ended(toks) && At(toks, i, [Number(n)]) && i + 1 < |toks|
    ensures FactorAt(fns, env, toks, i) == Ok((n, i + 1))
  {
    AtHead(toks, i, [Number(n)]);
  }

  lemma AtomParseRef(fns: MathFn, env: Env, toks: seq<Token>, i: nat, name: string)
    requires Ended(toks) && At(toks, i, [Variable(name)]) && i + 1 < |toks|
    ensures FactorAt(fns, env, toks, i) == Attach(AtomValue(fns, env, Ref(name)), i + 1)
  {
    AtHead(toks, i, [Variable(name)]);
  }

  lemma {:induction false} AtomParseSigned(fns: MathFn, env: Env, toks: seq<Token>, i: nat, sign: AddOp, arg: Atom)
    requires Ended(toks) && At(toks, i, EmitAtom(Signed(sign, arg))) && i + |EmitAtom(Signed(sign, arg))| < |toks|
    ensures FactorAt(fns, env, toks, i) == Attach(AtomValue(fns, env, Signed(sign, arg)), i + |EmitAtom(Signed(sign, arg))|)
    decreases Signed(sign, arg), 0
  {
    AtSplit(toks, i, [Operator(AddChar(sign))], EmitAtom(arg));
    AtHead(toks, i, [Operator(AddChar(sign))]);
    AtomParse(fns, env, toks, i + 1, arg);
    FactorSigned(fns, env, toks, i, i + 1 + |EmitAtom(arg)|, sign, AtomValue(fns, env, arg));
  }

  lemma {:induction false} AtomParseGroup(fns: MathFn, env: Env, toks: seq<Token>, i: nat, inner: Sum)
    requires Ended(toks) && At(toks, i, EmitAtom(Group(inner))) && i + |EmitAtom(Group(inner))| < |toks|
    ensures FactorAt(fns, env, toks, i) == Attach(AtomValue(fns, env, Group(inner)), i + |EmitAtom(Group(inner))|)
    decreases Group(inner), 0
  {
    var j := i + 1 + |EmitSum(inner)|;
    AtSplit(toks, i, [Operator('(')] + EmitSum(inner), [Operator(')')]);
    AtSplit(toks, i, [Operator('(')], EmitSum(inner));
    AtHead(toks, i, [Operator('(')]);
    AtHead(toks, j, [Operator(')')]);
    SumParse(fns, env, toks, i + 1, inner);
    FactorGroup(fns, env, toks, i, j, SumValue(fns, env, inner));
  }

  lemma {:induction false} AtomParseCall(fns: MathFn, env: Env, toks: seq<Token>, i: nat, fn: string, param: Sum)
    requires Ended(toks) && At(toks, i, EmitAtom(Call(fn, param))) && i + |EmitAtom(Call(fn, param))| < |toks|
    ensures FactorAt(fns, env, toks, i) == Attach(AtomValue(fns, env, Call(fn, param)), i + |EmitAtom(Call(fn, param))|)
    decreases Call(fn, param), 0
  {
    var j := i + 2 + |EmitSum(param)|;
    AtSplit(toks, i, [Function(fn), Operator('(')] + EmitSum(param), [Operator(')')]);
    AtSplit(toks, i, [Function(fn), Operator('(')], EmitSum(param));
    AtIndex(toks, i, [Function(fn), Operator('(')], 0);
    AtIndex(toks, i, [Function(fn), Operator('(')], 1);
    AtHead(toks, j, [Operator(')')]);
    SumParse(fns, env, toks, i + 2, param);
    FactorCall(fns, env, toks, i, j, fn, SumValue(fns, env, param));
  }

  /** `factor` reads an atom's tokens and returns the atom's value. */
  lemma {:induction false} AtomParse(fns: MathFn, env: Env, toks: seq<Token>, i: nat, a: Atom)
    requires Ended(toks) && At(toks, i, EmitAtom(a)) && i + |EmitAtom(a)| < |toks|
    ensures FactorAt(fns, env, toks, i) == Attach(AtomValue(fns, env, a), i + |EmitAtom(a)|)
    decreases a, 1
  {
    match a
    case Lit(n) => AtomParseLit(fns, env, toks, i, n);
    case Ref(name) => AtomParseRef(fns, env, toks, i, name);
    case Signed(sign, arg) => AtomParseSigned(fns, env, toks, i, sign, arg);
    case Group(inner) => AtomParseGroup(fns, env, toks, i, inner);
    case Call(fn, param) => AtomParseCall(fns, env, toks, i, fn, param);
  }

  /** `expr` reads a sum's tokens and returns the sum's value, when a non-operator follows them. */
  lemma {:induction false} SumParse(fns: MathFn, env: Env, toks: seq<Token>, i: nat, s: Sum)
    requires Ended(toks) && At(toks, i, EmitSum(s)) && i + |EmitSum(s)| < |toks|
    requires EndsSum(toks[i + |EmitSum(s)|])
    ensures ExprAt(fns, env, toks, i) == Attach(SumValue(fns, env, s), i + |EmitSum(s)|)
    decreases s, 2
  {
    var j := i + |EmitProduct(s.head)|;
    SumHeadSplit(toks, i, s);
    ProductParse(fns, env, toks, i, s.head);
    var r := ProductValue(fns, env, s.head);
    ExprStart(fns, env, toks, i, j, r);
    if r.Ok? {
      SumTailParse(fns, env, toks, j, s, 0, r.value);
    }
  }

  /** The tokens of a sum at `i` are those of its first product, then its tail. */
  lemma SumHeadSplit(toks: seq<Token>, i: nat, s: Sum)
    requires Ended(toks) && At(toks, i, EmitSum(s)) && i + |EmitSum(s)| < |toks|
    requires EndsSum(toks[i + |EmitSum(s)|])
    ensures var j := i + |EmitProduct(s.head)|;
      && At(toks, i, EmitProduct(s.head)) && j < |toks| && !IsMulOp(toks[j])
      && SumTailAt(toks, j, s, 0)
  {
    var u := EmitProduct(s.head);
    AtSplit(toks, i, u, EmitSumTail(s, 0));
    var j := i + |u|;
    if 0 < |s.tail| {
      SumTailHead(s, 0);
      AtHead(toks, j, EmitSumTail(s, 0));
    }
  }

  lemma ExprStart(fns: MathFn, env: Env, toks: seq<Token>, i: nat, j: nat, r: Result<real, MathError>)
    requires Ended(toks) && i < j < |toks|
    requires TermAt(fns, env, toks, i) == Attach(r, j)
    ensures r.Err? ==> ExprAt(fns, env, toks, i) == Err(r.error)
    ensures r.Ok? ==> ExprAt(fns, env, toks, i) == ExprLoop(fns, env, toks, j, r.value)
  {
  }

  lemma ExprLoopStep(fns: MathFn, env: Env, toks: seq<Token>, i: nat, j: nat, acc: real, op: AddOp,
                     r: Result<real, MathError>)
    requires Ended(toks) && i < j < |toks|
    requires toks[i] == Operator(AddChar(op))
    requires TermAt(fns, env, toks, i + 1) == Attach(r, j)
    ensures r.Err? ==> ExprLoop(fns, env, toks, i, acc) == Err(r.error)
    ensures r.Ok? ==>
      ExprLoop(fns, env, toks, i, acc) == ExprLoop(fns, env, toks, j, if op == Plus then acc + r.value else acc - r.value)
  {
  }

  /** The tokens of the `k`-th `+`/`-` term: its operator, its product, and what follows. */
  /** The tokens of the `+`/`-` terms from the `k`-th on occur from index `i`, and an expression ends after them. */
  predicate SumTailAt(toks: seq<Token>, i: nat, s: Sum, k: nat) {
    && k <= |s.tail| && Ended(toks)
    && At(toks, i, EmitSumTail(s, k)) && i + |EmitSumTail(s, k)| < |toks|
    && EndsSum(toks[i + |EmitSumTail(s, k)|])
  }

  lemma SumTailSplit(toks: seq<Token>, i: nat, s: Sum, k: nat)
    requires k < |s.tail| && SumTailAt(toks, i, s, k)
    ensures var j := i + 1 + |EmitProduct(s.tail[k].1)|;
      && toks[i] == Operator(AddChar(s.tail[k].0))
      && At(toks, i + 1, EmitProduct(s.tail[k].1))
      && j + |EmitSumTail(s, k + 1)| == i + |EmitSumTail(s, k)|
      && SumTailAt(toks, j, s, k + 1)
      && !IsMulOp(toks[j])
  {
    var op, p := s.tail[k].0, s.tail[k].1;
    AtSplit(toks, i, [Operator(AddChar(op))] + EmitProduct(p), EmitSumTail(s, k + 1));
    AtSplit(toks, i, [Operator(AddChar(op))], EmitProduct(p));
    AtHead(toks, i, [Operator(AddChar(op))]);
    var j := i + 1 + |EmitProduct(p)|;
    if k + 1 < |s.tail| {
      SumTailHead(s, k + 1);
      AtHead(toks, j, EmitSumTail(s, k + 1));
    }
  }

  lemma SumFoldStep(fns: MathFn, env: Env, s: Sum, k: nat, acc: real)
    requires k < |s.tail|
    ensures var r := ProductValue(fns, env, s.tail[k].1);
      && (r.Err? ==> SumFold(fns, env, s, k, acc) == Err(r.error))
      && (r.Ok? ==> SumFold(fns, env, s, k, acc)
                    == SumFold(fns, env, s, k + 1, if s.tail[k].0 == Plus then acc + r.value else acc - r.value))
  {
  }

  lemma {:induction false} SumTailParse(fns: MathFn, env: Env, toks: seq<Token>, i: nat, s: Sum, k: nat, acc: real)
    requires SumTailAt(toks, i, s, k)
    ensures ExprLoop(fns, env, toks, i, acc) == Attach(SumFold(fns, env, s, k, acc), i + |EmitSumTail(s, k)|)
    decreases s, 1, |s.tail| - k
  {
    if k < |s.tail| {
      SumTailStep(fns, env, toks, i, s, k, acc);
      SumFoldStep(fns, env, s, k, acc);
      var r := ProductValue(fns, env, s.tail[k].1);
      if r.Ok? {
        var j := i + 1 + |EmitProduct(s.tail[k].1)|;
        var next := if s.tail[k].0 == Plus then acc + r.value else acc - r.value;
        SumTailParse(fns, env, toks, j, s, k + 1, next);
        calc {
          ExprLoop(fns, env, toks, i, acc);
          ExprLoop(fns, env, toks, j, next);
          Attach(SumFold(fns, env, s, k + 1, next), j + |EmitSumTail(s, k + 1)|);
          Attach(SumFold(fns, env, s, k, acc), i + |EmitSumTail(s, k)|);
        }
      } else {
        assert ExprLoop(fns, env, toks, i, acc) == Err(r.error);
        assert SumFold(fns, env, s, k, acc) == Err(r.error);
      }
    } else {
      SumTailEnd(fns, env, toks, i, s, acc);
    }
  }

  /** One pass of `expr`'s loop over the `k`-th term of a sum. */
  lemma {:induction false} SumTailStep(fns: MathFn, env: Env, toks: seq<Token>, i: nat, s: Sum, k: nat, acc: real)
    requires k < |s.tail| && SumTailAt(toks, i, s, k)
    ensures var r := ProductValue(fns, env, s.tail[k].1);
      var j := i + 1 + |EmitProduct(s.tail[k].1)|;
      && (r.Err? ==> ExprLoop(fns, env, toks, i, acc) == Err(r.error))
      && (r.Ok? ==>
            var next := if s.tail[k].0 == Plus then acc + r.value else acc - r.value;
            && ExprLoop(fns, env, toks, i, acc) == ExprLoop(fns, env, toks, j, next)
            && SumTailAt(toks, j, s, k + 1)
            && j + |EmitSumTail(s, k + 1)| == i + |EmitSumTail(s, k)|)
    decreases s, 1, |s.tail| - k - 1
  {
    var op, p := s.tail[k].0, s.tail[k].1;
    var j := i + 1 + |EmitProduct(p)|;
    SumTailSplit(toks, i, s, k);
    ProductParse(fns, env, toks, i + 1, p);
    ExprLoopStep(fns, env, toks, i, j, acc, op, ProductValue(fns, env, p));
  }

  lemma SumTailEnd(fns: MathFn, env: Env, toks: seq<Token>, i: nat, s: Sum, acc: real)
    requires SumTailAt(toks, i, s, |s.tail|)
    ensures EmitSumTail(s, |s.tail|) == [] && SumFold(fns, env, s, |s.tail|, acc) == Ok(acc)
    ensures ExprLoop(fns, env, toks, i, acc) == Ok((acc, i))
  {
  }

  /** `term` reads a product's tokens and returns the product's value, when no `*`, `/`, `%` follows. */
  lemma {:induction false} ProductParse(fns: MathFn, env: Env, toks: seq<Token>, i: nat, p: Product)
    requires Ended(toks) && At(toks, i, EmitProduct(p)) && i + |EmitProduct(p)| < |toks|
    requires !IsMulOp(toks[i + |EmitProduct(p)|])
    ensures TermAt(fns, env, toks, i) == Attach(ProductValue(fns, env, p), i + |EmitProduct(p)|)
    decreases p, 2
  {
    var u := EmitAtom(p.head);
    var j := i + |u|;
    AtSplit(toks, i, u, EmitProductTail(p, 0));
    AtomParse(fns, env, toks, i, p.head);
    var r := AtomValue(fns, env, p.head);
    TermStart(fns, env, toks, i, j, r);
    if r.Ok? {
      ProductTailParse(fns, env, toks, j, p, 0, r.value);
    }
  }

  lemma TermStart(fns: MathFn, env: Env, toks: seq<Token>, i: nat, j: nat, r: Result<real, MathError>)
    requires Ended(toks) && i < j < |toks|
    requires FactorAt(fns, env, toks, i) == Attach(r, j)
    ensures r.Err? ==> TermAt(fns, env, toks, i) == Err(r.error)
    ensures r.Ok? ==> TermAt(fns, env, toks, i) == TermLoop(fns, env, toks, j, r.value)
  {
  }

  lemma TermLoopStep(fns: MathFn, env: Env, toks: seq<Token>, i: nat, j: nat, acc: real, op: MulOp,
                     r: Result<real, MathError>)
    requires Ended(toks) && i < j < |toks|
    requires toks[i] == Operator(MulChar(op))
    requires FactorAt(fns, env, toks, i + 1) == Attach(r, j)
    ensures r.Err? ==> TermLoop(fns, env, toks, i, acc) == Err(r.error)
    ensures r.Ok? && MulStep(MulChar(op), acc, r.value).Err? ==>
      TermLoop(fns, env, toks, i, acc) == Err(MulStep(MulChar(op), acc, r.value).error)
    ensures r.Ok? && MulStep(MulChar(op), acc, r.value).Ok? ==>
      TermLoop(fns, env, toks, i, acc) == TermLoop(fns, env, toks, j, MulStep(MulChar(op), acc, r.value).value)
  {
  }

  lemma {:induction false} ProductTailParse(fns: MathFn, env: Env, toks: seq<Token>, i: nat, p: Product, k: nat, acc: real)
    requires k <= |p.tail|
    requires Ended(toks) && At(toks, i, EmitProductTail(p, k)) && i + |EmitProductTail(p, k)| < |toks|
    requires !IsMulOp(toks[i + |EmitProductTail(p, k)|])
    ensures TermLoop(fns, env, toks, i, acc) == Attach(ProductFold(fns, env, p, k, acc), i + |EmitProductTail(p, k)|)
    decreases p, 1, |p.tail| - k
  {
    if k < |p.tail| {
      var op, a := p.tail[k].0, p.tail[k].1;
      AtSplit(toks, i, [Operator(MulChar(op))] + EmitAtom(a), EmitProductTail(p, k + 1));
      AtSplit(toks, i, [Operator(MulChar(op))], EmitAtom(a));
      AtHead(toks, i, [Operator(MulChar(op))]);
      var j := i + 1 + |EmitAtom(a)|;
      AtomParse(fns, env, toks, i + 1, a);
      var r := AtomValue(fns, env, a);
      TermLoopStep(fns, env, toks, i, j, acc, op, r);
      if r.Ok? && MulStep(MulChar(op), acc, r.value).Ok? {
        ProductTailParse(fns, env, toks, j, p, k + 1, MulStep(MulChar(op), acc, r.value).value);
      }
    }
  }

  lemma EmitNonEmpty(s: Sum)
    ensures |EmitSum(s)| > 0
  {
    assert |EmitAtom(s.head.head)| > 0;
  }

  /** Text that tokenizes to a tree's tokens evaluates to the tree's value. */
  lemma EvaluateTokens(fns: MathFn, env: Env, s: Sum, rest: seq<Token>, expression: string)
    requires Lex(expression) == LexOutcome(EmitSum(s) + rest + [EOF], None)
    requires rest == [] || EndsSum(rest[0])
    ensures Evaluate(fns, expression, Some(env)) == SumValue(fns, env, s)
  {
    var w := EmitSum(s);
    var toks := w + rest + [EOF];
    TreeTokens(w, rest);
    SumParse(fns, env, toks, 0, s);
    EvaluateOf(fns, env, expression, toks, SumValue(fns, env, s), |w|);
  }

  /** The text of a tree's tokens evaluates to the tree's value: precedence, left folding, signs, groups and calls. */
  lemma EvaluateTree(fns: MathFn, env: Env, s: Sum, rest: seq<Token>)
    requires forall k :: 0 <= k < |EmitSum(s) + rest| ==> Printable((EmitSum(s) + rest)[k])
    requires rest == [] || EndsSum(rest[0])
    ensures Evaluate(fns, Render(EmitSum(s) + rest), Some(env)) == SumValue(fns, env, s)
  {
    EmitNonEmpty(s);
    LexRoundTrip(EmitSum(s) + rest);
    EvaluateTokens(fns, env, s, rest, Render(EmitSum(s) + rest));
  }

  lemma TreeTokens(w: seq<Token>, rest: seq<Token>)
    requires rest == [] || EndsSum(rest[0])
    ensures var toks := w + rest + [EOF];
      Ended(toks) && At(toks, 0, w) && |w| < |toks| && EndsSum(toks[|w|])
  {
    var toks := w + rest + [EOF];
    assert toks == w + (rest + [EOF]);
    AtSplit(toks, 0, w, rest + [EOF]);
  }

  /** `parse` returns what `expr` computes from the first token. */
  lemma EvaluateOf(fns: MathFn, env: Env, expression: string, toks: seq<Token>, r: Result<real, MathError>, j: nat)
    requires Lex(expression) == LexOutcome(toks, None)
    requires Ended(toks) && ExprAt(fns, env, toks, 0) == Attach(r, j)
    ensures Evaluate(fns, expression, Some(env)) == r
  {
  }

  // ---------------------------------------------------------------------------
  // Consequences
  // ---------------------------------------------------------------------------

  function Lone(n: nat): Product {
    Product(Lit(n as real), [])
  }

  lemma EmitLone(n: nat)
    ensures EmitProduct(Lone(n)) == [Number(n as real)]
  {
    assert EmitProductTail(Lone(n), 0) == [];
  }

  /** The tokens of a product with one operator. */
  lemma EmitPair(x: Atom, op: MulOp, y: Atom)
    ensures EmitProduct(Product(x, [(op, y)])) == EmitAtom(x) + [Operator(MulChar(op))] + EmitAtom(y)
  {
    var p := Product(x, [(op, y)]);
    assert EmitProductTail(p, 1) == [];
  }

  /** The tokens of a sum with one operator. */
  lemma EmitSumPair(x: Product, op: AddOp, y: Product)
    ensures EmitSum(Sum(x, [(op, y)])) == EmitProduct(x) + [Operator(AddChar(op))] + EmitProduct(y)
  {
    var s := Sum(x, [(op, y)]);
    assert EmitSumTail(s, 1) == [];
  }

  lemma EmitSingle(x: Product)
    ensures EmitSum(Sum(x, [])) == EmitProduct(x)
  {
    assert EmitSumTail(Sum(x, []), 0) == [];
  }

  lemma ValueLone(fns: MathFn, env: Env, n: nat)
    ensures ProductValue(fns, env, Lone(n)) == Ok(n as real)
  {
  }

  lemma ValuePair(fns: MathFn, env: Env, x: Atom, op: MulOp, y: Atom, a: real, b: real)
    requires AtomValue(fns, env, x) == Ok(a) && AtomValue(fns, env, y) == Ok(b)
    ensures ProductValue(fns, env, Product(x, [(op, y)])) == MulStep(MulChar(op), a, b)
  {
    var p := Product(x, [(op, y)]);
    assert ProductFold(fns, env, p, 0, a) == match MulStep(MulChar(op), a, b)
      case Err(e) => Err(e)
      case Ok(w) => ProductFold(fns, env, p, 1, w);
  }

  lemma ValueSumPair(fns: MathFn, env: Env, x: Product, op: AddOp, y: Product, u: real, v: real)
    requires ProductValue(fns, env, x) == Ok(u) && ProductValue(fns, env, y) == Ok(v)
    ensures SumValue(fns, env, Sum(x, [(op, y)])) == Ok(if op == Plus then u + v else u - v)
  {
    var s := Sum(x, [(op, y)]);
    assert SumFold(fns, env, s, 1, if op == Plus then u + v else u - v) == Ok(if op == Plus then u + v else u - v);
  }

  lemma ValueSingle(fns: MathFn, env: Env, x: Product)
    ensures SumValue(fns, env, Sum(x, [])) == ProductValue(fns, env, x)
  {
  }

  /** A tree whose tokens are `toks` (then `rest`) evaluates, from the text of those tokens, to the tree's value. */
  lemma EvaluateExample(fns: MathFn, env: Env, s: Sum, rest: seq<Token>, toks: seq<Token>, v: Result<real, MathError>)
    requires EmitSum(s) + rest == toks && AllPrintable(toks) && (rest == [] || EndsSum(rest[0]))
    requires SumValue(fns, env, s) == v
    ensures Evaluate(fns, Render(toks), Some(env)) == v
  {
    EvaluateTree(fns, env, s, rest);
  }

  lemma NumberPrintable(n: nat)
    ensures Printable(Number(n as real))
  {
  }

  /** `*` binds tighter than `+`. */
  lemma MultiplicationFirst(fns: MathFn, env: Env, a: nat, b: nat, c: nat)
    ensures Evaluate(fns, Render([Number(a as real), Operator('+'), Number(b as real), Operator('*'), Number(c as real)]),
                     Some(env)) == Ok(a as real + b as real * c as real)
  {
    var p := Product(Lit(b as real), [(Times, Lit(c as real))]);
    var s := Sum(Lone(a), [(Plus, p)]);
    var toks := [Number(a as real), Operator('+'), Number(b as real), Operator('*'), Number(c as real)];
    MultiplicationFirstTree(fns, env, s, p, a, b, c);
    NumberPrintable(a); NumberPrintable(b); NumberPrintable(c);
    EvaluateExample(fns, env, s, [], toks, Ok(a as real + b as real * c as real));
  }

  lemma MultiplicationFirstTree(fns: MathFn, env: Env, s: Sum, p: Product, a: nat, b: nat, c: nat)
    requires p == Product(Lit(b as real), [(Times, Lit(c as real))]) && s == Sum(Lone(a), [(Plus, p)])
    ensures EmitSum(s) + [] == [Number(a as real), Operator('+'), Number(b as real), Operator('*'), Number(c as real)]
    ensures SumValue(fns, env, s) == Ok(a as real + b as real * c as real)
  {
    EmitLone(a);
    EmitPair(Lit(b as real), Times, Lit(c as real));
    EmitSumPair(Lone(a), Plus, p);
    ValueLone(fns, env, a);
    ValuePair(fns, env, Lit(b as real), Times, Lit(c as real), b as real, c as real);
    ValueSumPair(fns, env, Lone(a), Plus, p, a as real, b as real * c as real);
  }

  /** `-` folds from the left, as `10 - 3 - 2` is 5. */
  lemma SubtractionFromLeft(fns: MathFn, env: Env, a: nat, b: nat, c: nat)
    ensures Evaluate(fns, Render([Number(a as real), Operator('-'), Number(b as real), Operator('-'), Number(c as real)]),
                     Some(env)) == Ok((a as real - b as real) - c as real)
  {
    var s := Sum(Lone(a), [(Minus, Lone(b)), (Minus, Lone(c))]);
    var toks := [Number(a as real), Operator('-'), Number(b as real), Operator('-'), Number(c as real)];
    SubtractionFromLeftTree(fns, env, s, a, b, c);
    NumberPrintable(a); NumberPrintable(b); NumberPrintable(c);
    EvaluateExample(fns, env, s, [], toks, Ok((a as real - b as real) - c as real));
  }

  lemma SubtractionFromLeftTree(fns: MathFn, env: Env, s: Sum, a: nat, b: nat, c: nat)
    requires s == Sum(Lone(a), [(Minus, Lone(b)), (Minus, Lone(c))])
    ensures EmitSum(s) + [] == [Number(a as real), Operator('-'), Number(b as real), Operator('-'), Number(c as real)]
    ensures SumValue(fns, env, s) == Ok((a as real - b as real) - c as real)
  {
    EmitLone(a); EmitLone(b); EmitLone(c);
    assert EmitSumTail(s, 2) == [];
    assert EmitSumTail(s, 1) == [Operator('-'), Number(c as real)];
    ValueLone(fns, env, a); ValueLone(fns, env, b); ValueLone(fns, env, c);
    assert SumFold(fns, env, s, 2, (a as real - b as real) - c as real) == Ok((a as real - b as real) - c as real);
    assert SumFold(fns, env, s, 1, a as real - b as real) == Ok((a as real - b as real) - c as real);
  }

  /** `/` folds from the left too. */
  lemma DivisionFromLeft(fns: MathFn, env: Env, a: nat, b: nat, c: nat)
    requires b != 0 && c != 0
    ensures Evaluate(fns, Render([Number(a as real), Operator('/'), Number(b as real), Operator('/'), Number(c as real)]),
                     Some(env)) == Ok((a as real / b as real) / c as real)
  {
    var p := Product(Lit(a as real), [(Over, Lit(b as real)), (Over, Lit(c as real))]);
    var s := Sum(p, []);
    var toks := [Number(a as real), Operator('/'), Number(b as real), Operator('/'), Number(c as real)];
    DivisionFromLeftTree(fns, env, s, p, a, b, c);
    NumberPrintable(a); NumberPrintable(b); NumberPrintable(c);
    EvaluateExample(fns, env, s, [], toks, Ok((a as real / b as real) / c as real));
  }

  lemma DivisionFromLeftTree(fns: MathFn, env: Env, s: Sum, p: Product, a: nat, b: nat, c: nat)
    requires b != 0 && c != 0
    requires p == Product(Lit(a as real), [(Over, Lit(b as real)), (Over, Lit(c as real))]) && s == Sum(p, [])
    ensures EmitSum(s) + [] == [Number(a as real), Operator('/'), Number(b as real), Operator('/'), Number(c as real)]
    ensures SumValue(fns, env, s) == Ok((a as real / b as real) / c as real)
  {
    EmitSingle(p);
    assert EmitProductTail(p, 2) == [];
    assert EmitProductTail(p, 1) == [Operator('/'), Number(c as real)];
    assert EmitProductTail(p, 0) == [Operator('/'), Number(b as real), Operator('/'), Number(c as real)];
    var q := (a as real / b as real) / c as real;
    assert ProductFold(fns, env, p, 2, q) == Ok(q);
    assert ProductFold(fns, env, p, 1, a as real / b as real) == Ok(q);
    assert MulStep('/', a as real, b as real) == Ok(a as real / b as real);
    assert ProductFold(fns, env, p, 0, a as real) == Ok(q);
    ValueSingle(fns, env, p);
  }

  /** A unary sign applies to the factor after it, as `-2+3` is 1. */
  lemma UnaryMinus(fns: MathFn, env: Env, a: nat, b: nat)
    ensures Evaluate(fns, Render([Operator('-'), Number(a as real), Operator('+'), Number(b as real)]), Some(env))
         == Ok(-(a as real) + b as real)
  {
    var p := Product(Signed(Minus, Lit(a as real)), []);
    var s := Sum(p, [(Plus, Lone(b))]);
    var toks := [Operator('-'), Number(a as real), Operator('+'), Number(b as real)];
    UnaryMinusTree(fns, env, s, p, a, b);
    NumberPrintable(a); NumberPrintable(b);
    EvaluateExample(fns, env, s, [], toks, Ok(-(a as real) + b as real));
  }

  lemma UnaryMinusTree(fns: MathFn, env: Env, s: Sum, p: Product, a: nat, b: nat)
    requires p == Product(Signed(Minus, Lit(a as real)), []) && s == Sum(p, [(Plus, Lone(b))])
    ensures EmitSum(s) + [] == [Operator('-'), Number(a as real), Operator('+'), Number(b as real)]
    ensures SumValue(fns, env, s) == Ok(-(a as real) + b as real)
  {
    EmitLone(b);
    assert EmitProductTail(p, 0) == [];
    assert EmitAtom(Signed(Minus, Lit(a as real))) == [Operator('-'), Number(a as real)];
    EmitSumPair(p, Plus, Lone(b));
    ValueLone(fns, env, b);
    assert AtomValue(fns, env, Signed(Minus, Lit(a as real))) == Ok(-(a as real));
    assert ProductFold(fns, env, p, 0, -(a as real)) == Ok(-(a as real));
    assert ProductValue(fns, env, p) == Ok(-(a as real));
    ValueSumPair(fns, env, p, Plus, Lone(b), -(a as real), b as real);
  }

  /** Parentheses override precedence, as `(2+3)*4` is 20. */
  lemma GroupFirst(fns: MathFn, env: Env, a: nat, b: nat, c: nat)
    ensures Evaluate(fns, Render([Operator('('), Number(a as real), Operator('+'), Number(b as real), Operator(')'),
                                  Operator('*'), Number(c as real)]), Some(env))
         == Ok(((a + b) as real) * (c as real))
  {
    var inner := Sum(Lone(a), [(Plus, Lone(b))]);
    var p := Product(Group(inner), [(Times, Lit(c as real))]);
    var s := Sum(p, []);
    var toks := [Operator('('), Number(a as real), Operator('+'), Number(b as real), Operator(')'),
                 Operator('*'), Number(c as real)];
    GroupFirstTokens(s, p, inner, a, b, c);
    GroupFirstValue(fns, env, s, p, inner, a, b, c);
    NumberPrintable(a); NumberPrintable(b); NumberPrintable(c);
    EvaluateExample(fns, env, s, [], toks, MulStep(MulChar(Times), (a + b) as real, c as real));
    TimesStep((a + b) as real, c as real);
  }

  lemma GroupFirstTokens(s: Sum, p: Product, inner: Sum, a: nat, b: nat, c: nat)
    requires inner == Sum(Lone(a), [(Plus, Lone(b))])
    requires p == Product(Group(inner), [(Times, Lit(c as real))]) && s == Sum(p, [])
    ensures EmitSum(s) + [] == [Operator('('), Number(a as real), Operator('+'), Number(b as real), Operator(')'),
                                Operator('*'), Number(c as real)]
  {
    EmitLone(a); EmitLone(b);
    EmitSumPair(Lone(a), Plus, Lone(b));
    EmitPair(Group(inner), Times, Lit(c as real));
    EmitSingle(p);
  }

  lemma GroupFirstValue(fns: MathFn, env: Env, s: Sum, p: Product, inner: Sum, a: nat, b: nat, c: nat)
    requires inner == Sum(Lone(a), [(Plus, Lone(b))])
    requires p == Product(Group(inner), [(Times, Lit(c as real))]) && s == Sum(p, [])
    ensures SumValue(fns, env, s) == MulStep(MulChar(Times), (a + b) as real, c as real)
  {
    ValueLone(fns, env, a); ValueLone(fns, env, b);
    ValueSumPair(fns, env, Lone(a), Plus, Lone(b), a as real, b as real);
    assert AtomValue(fns, env, Group(inner)) == Ok((a + b) as real);
    ValuePair(fns, env, Group(inner), Times, Lit(c as real), (a + b) as real, c as real);
    ValueSingle(fns, env, p);
  }

  lemma TimesStep(u: real, v: real)
    ensures MulStep(MulChar(Times), u, v) == Ok(u * v)
  {
  }

  /** A zero divisor raises for `/`. */
  lemma DivisionByZeroRaised(fns: MathFn, env: Env, a: nat)
    ensures Evaluate(fns, Render([Number(a as real), Operator('/'), Number(0.0)]), Some(env)) == Err(DivisionByZero)
  {
    var p := Product(Lit(a as real), [(Over, Lit(0.0))]);
    var s := Sum(p, []);
    ZeroDivisorTree(fns, env, s, p, a, Over);
    NumberPrintable(a); NumberPrintable(0);
    EvaluateExample(fns, env, s, [], [Number(a as real), Operator('/'), Number(0.0)], Err(DivisionByZero));
  }

  /** A zero divisor raises for `%` as well, through Python's own check. */
  lemma ModuloByZeroRaised(fns: MathFn, env: Env, a: nat)
    ensures Evaluate(fns, Render([Number(a as real), Operator('%'), Number(0.0)]), Some(env)) == Err(ModuloByZero)
  {
    var p := Product(Lit(a as real), [(Mod, Lit(0.0))]);
    var s := Sum(p, []);
    ZeroDivisorTree(fns, env, s, p, a, Mod);
    NumberPrintable(a); NumberPrintable(0);
    EvaluateExample(fns, env, s, [], [Number(a as real), Operator('%'), Number(0.0)], Err(ModuloByZero));
  }

  lemma ZeroDivisorTree(fns: MathFn, env: Env, s: Sum, p: Product, a: nat, op: MulOp)
    requires op != Times
    requires p == Product(Lit(a as real), [(op, Lit(0.0))]) && s == Sum(p, [])
    ensures EmitSum(s) + [] == [Number(a as real), Operator(MulChar(op)), Number(0.0)]
    ensures SumValue(fns, env, s) == Err(if op == Over then DivisionByZero else ModuloByZero)
  {
    EmitPair(Lit(a as real), op, Lit(0.0));
    EmitSingle(p);
    ValuePair(fns, env, Lit(a as real), op, Lit(0.0), a as real, 0.0);
  }

  /** A name missing from `variables` raises. */
  lemma UnknownVariableRaised(fns: MathFn, env: Env, name: string)
    requires IsName(name) && name !in FunctionNames && name !in env
    ensures Evaluate(fns, Render([Variable(name)]), Some(env)) == Err(UnknownVariable(name))
  {
    var p := Product(Ref(name), []);
    var s := Sum(p, []);
    assert EmitProductTail(p, 0) == [];
    EmitSingle(p);
    assert EmitSum(s) + [] == [Variable(name)];
    assert AtomValue(fns, env, Ref(name)) == Err(UnknownVariable(name));
    ValueSingle(fns, env, p);
    EvaluateExample(fns, env, s, [], [Variable(name)], Err(UnknownVariable(name)));
  }

  /** `parse` does not check that `EOF` was reached: what follows a complete expression is ignored, as in `2 3`. */
  lemma TrailingTokensIgnored(fns: MathFn, env: Env, a: nat, b: nat)
    ensures Evaluate(fns, Render([Number(a as real), Number(b as real)]), Some(env)) == Ok(a as real)
  {
    var s := Sum(Lone(a), []);
    EmitLone(a);
    EmitSingle(Lone(a));
    assert EmitSum(s) + [Number(b as real)] == [Number(a as real), Number(b as real)];
    ValueLone(fns, env, a);
    ValueSingle(fns, env, Lone(a));
    NumberPrintable(a); NumberPrintable(b);
    EvaluateExample(fns, env, s, [Number(b as real)], [Number(a as real), Number(b as real)], Ok(a as real));
  }

  /** A factor followed by neither kind of binary operator is a whole expression. */
  lemma ExprOfFactor(fns: MathFn, env: Env, toks: seq<Token>, i: nat, j: nat, r: Result<real, MathError>)
    requires Ended(toks) && i < j < |toks| && EndsSum(toks[j])
    requires FactorAt(fns, env, toks, i) == Attach(r, j)
    ensures ExprAt(fns, env, toks, i) == Attach(r, j)
  {
    assert TermAt(fns, env, toks, i) == Attach(r, j);
  }

  predicate AllPrintable(tokens: seq<Token>) {
    forall k :: 0 <= k < |tokens| ==> Printable(tokens[k])
  }

  lemma PrintableWrap(u: Token, w: seq<Token>, v: Token)
    requires Printable(u) && AllPrintable(w) && Printable(v)
    ensures AllPrintable([u] + w + [v]) && AllPrintable([u] + w)
  {
    assert forall k :: 1 <= k < |w| + 1 ==> ([u] + w + [v])[k] == w[k - 1];
    assert forall k :: 1 <= k < |w| + 1 ==> ([u] + w)[k] == w[k - 1];
  }

  /** `expr` over the tokens of a parenthesised sum closed by either parenthesis. */
  lemma GroupParse(fns: MathFn, env: Env, s: Sum, c: char, toks: seq<Token>)
    requires c == '(' || c == ')'
    requires toks == [Operator('(')] + EmitSum(s) + [Operator(c)] + [EOF]
    ensures Ended(toks) && ExprAt(fns, env, toks, 0) == Attach(SumValue(fns, env, s), |toks| - 1)
  {
    GroupLayout(EmitSum(s), c, toks);
    GroupAt(fns, env, s, toks);
  }

  lemma GroupLayout(w: seq<Token>, c: char, toks: seq<Token>)
    requires c == '(' || c == ')'
    requires toks == [Operator('(')] + w + [Operator(c)] + [EOF]
    ensures |toks| == |w| + 3 && Ended(toks) && At(toks, 1, w)
    ensures toks[0] == Operator('(') && toks[|toks| - 2].Operator? && EndsSum(toks[|toks| - 2])
  {
    assert forall m :: 0 <= m < |w| ==> toks[1 + m] == w[m];
  }

  /** A `(`, the tokens of a sum, a closing operator that ends it, then `EOF`: the group's value. */
  lemma GroupAt(fns: MathFn, env: Env, s: Sum, toks: seq<Token>)
    requires |toks| == |EmitSum(s)| + 3 && Ended(toks) && At(toks, 1, EmitSum(s))
    requires toks[0] == Operator('(') && toks[|toks| - 2].Operator? && EndsSum(toks[|toks| - 2])
    ensures ExprAt(fns, env, toks, 0) == Attach(SumValue(fns, env, s), |toks| - 1)
  {
    var j := |toks| - 2;
    SumParse(fns, env, toks, 1, s);
    FactorGroup(fns, env, toks, 0, j, SumValue(fns, env, s));
    ExprOfFactor(fns, env, toks, 0, j + 1, SumValue(fns, env, s));
  }

  lemma GroupTokens(fns: MathFn, env: Env, s: Sum, c: char, expression: string)
    requires c == '(' || c == ')'
    requires Lex(expression) == LexOutcome([Operator('(')] + EmitSum(s) + [Operator(c)] + [EOF], None)
    ensures Evaluate(fns, expression, Some(env)) == SumValue(fns, env, s)
  {
    var toks := [Operator('(')] + EmitSum(s) + [Operator(c)] + [EOF];
    GroupParse(fns, env, s, c, toks);
    EvaluateOf(fns, env, expression, toks, SumValue(fns, env, s), |toks| - 1);
  }

  /** Any parenthesis closes a group, since `consume` checks only the kind: `(2+3(` is 5. */
  lemma GroupClosedByEitherParen(fns: MathFn, env: Env, s: Sum, c: char)
    requires c == '(' || c == ')'
    requires AllPrintable(EmitSum(s))
    ensures Evaluate(fns, Render([Operator('(')] + EmitSum(s) + [Operator(c)]), Some(env)) == SumValue(fns, env, s)
  {
    var t := [Operator('(')] + EmitSum(s) + [Operator(c)];
    PrintableWrap(Operator('('), EmitSum(s), Operator(c));
    LexRoundTrip(t);
    GroupTokens(fns, env, s, c, Render(t));
  }

  /** An unclosed group fails when `consume` meets `EOF`, as `(2+3` does. */
  lemma UnclosedGroupFails(fns: MathFn, env: Env, s: Sum)
    requires AllPrintable(EmitSum(s))
    requires SumValue(fns, env, s).Ok?
    ensures Evaluate(fns, Render([Operator('(')] + EmitSum(s)), Some(env)) == Err(Expected(OperatorKind, EOFKind))
  {
    var t := [Operator('(')] + EmitSum(s);
    PrintableWrap(Operator('('), EmitSum(s), Operator(')'));
    LexRoundTrip(t);
    var toks := t + [EOF];
    UnclosedLayout(EmitSum(s), toks);
    UnclosedAt(fns, env, s, toks);
    EvaluateOf(fns, env, Render(t), toks, Err(Expected(OperatorKind, EOFKind)), |toks| - 1);
  }

  lemma UnclosedLayout(w: seq<Token>, toks: seq<Token>)
    requires toks == [Operator('(')] + w + [EOF]
    ensures |toks| == |w| + 2 && Ended(toks) && At(toks, 1, w) && toks[0] == Operator('(')
  {
    assert forall m :: 0 <= m < |w| ==> toks[1 + m] == w[m];
  }

  /** A `(` and the tokens of a sum with a value, then `EOF`: closing the group fails. */
  lemma UnclosedAt(fns: MathFn, env: Env, s: Sum, toks: seq<Token>)
    requires |toks| == |EmitSum(s)| + 2 && Ended(toks) && At(toks, 1, EmitSum(s)) && toks[0] == Operator('(')
    requires SumValue(fns, env, s).Ok?
    ensures ExprAt(fns, env, toks, 0) == Err(Expected(OperatorKind, EOFKind))
  {
    var j := |toks| - 1;
    SumParse(fns, env, toks, 1, s);
    var e := Err(Expected(OperatorKind, EOFKind));
    assert FactorAt(fns, env, toks, 0) == Attach(e, j);
    ExprOfFactor(fns, env, toks, 0, j, e);
  }

  /** `expr` over the tokens of a call whose argument is opened by any operator and closed by either parenthesis. */
  lemma CallParse(fns: MathFn, env: Env, fn: string, o: char, s: Sum, c: char, toks: seq<Token>)
    requires c == '(' || c == ')'
    requires toks == [Function(fn), Operator(o)] + EmitSum(s) + [Operator(c)] + [EOF]
    ensures Ended(toks)
    ensures ExprAt(fns, env, toks, 0) == Attach(CallValue(fns, fn, SumValue(fns, env, s)), |toks| - 1)
  {
    CallLayout(fn, o, EmitSum(s), c, toks);
    CallAt(fns, env, fn, s, toks);
  }

  lemma CallLayout(fn: string, o: char, w: seq<Token>, c: char, toks: seq<Token>)
    requires c == '(' || c == ')'
    requires toks == [Function(fn), Operator(o)] + w + [Operator(c)] + [EOF]
    ensures |toks| == |w| + 4 && Ended(toks) && At(toks, 2, w)
    ensures toks[0] == Function(fn) && toks[1].Operator?
    ensures toks[|toks| - 2].Operator? && EndsSum(toks[|toks| - 2])
  {
    assert forall m :: 0 <= m < |w| ==> toks[2 + m] == w[m];
  }

  /** A function name, an opening operator, the tokens of a sum, a closing operator, then `EOF`: the call's value. */
  lemma CallAt(fns: MathFn, env: Env, fn: string, s: Sum, toks: seq<Token>)
    requires |toks| == |EmitSum(s)| + 4 && Ended(toks) && At(toks, 2, EmitSum(s))
    requires toks[0] == Function(fn) && toks[1].Operator?
    requires toks[|toks| - 2].Operator? && EndsSum(toks[|toks| - 2])
    ensures ExprAt(fns, env, toks, 0) == Attach(CallValue(fns, fn, SumValue(fns, env, s)), |toks| - 1)
  {
    var j := |toks| - 2;
    SumParse(fns, env, toks, 2, s);
    FactorCall(fns, env, toks, 0, j, fn, SumValue(fns, env, s));
    ExprOfFactor(fns, env, toks, 0, j + 1, CallValue(fns, fn, SumValue(fns, env, s)));
  }

  lemma CallTokens(fns: MathFn, env: Env, fn: string, o: char, s: Sum, c: char, expression: string)
    requires c == '(' || c == ')'
    requires Lex(expression) == LexOutcome([Function(fn), Operator(o)] + EmitSum(s) + [Operator(c)] + [EOF], None)
    ensures Evaluate(fns, expression, Some(env)) == CallValue(fns, fn, SumValue(fns, env, s))
  {
    var toks := [Function(fn), Operator(o)] + EmitSum(s) + [Operator(c)] + [EOF];
    CallParse(fns, env, fn, o, s, c, toks);
    EvaluateOf(fns, env, expression, toks, CallValue(fns, fn, SumValue(fns, env, s)), |toks| - 1);
  }

  /** Any operator opens a call's argument and either parenthesis closes it: `sqrt*4(` applies `sqrt` to 4. */
  lemma CallDelimitedByAnyOperator(fns: MathFn, env: Env, fn: string, o: char, s: Sum, c: char)
    requires fn in FunctionNames && IsOperator(o) && (c == '(' || c == ')')
    requires AllPrintable(EmitSum(s))
    ensures Evaluate(fns, Render([Function(fn), Operator(o)] + EmitSum(s) + [Operator(c)]), Some(env))
         == CallValue(fns, fn, SumValue(fns, env, s))
  {
    var w := EmitSum(s);
    var t := [Function(fn), Operator(o)] + w + [Operator(c)];
    PrintableWrap(Operator(o), w, Operator(c));
    assert t == [Function(fn)] + ([Operator(o)] + w + [Operator(c)]);
    assert AllPrintable(t) by {
      assert forall k :: 1 <= k < |t| ==> t[k] == ([Operator(o)] + w + [Operator(c)])[k - 1];
    }
    LexRoundTrip(t);
    CallTokens(fns, env, fn, o, s, c, Render(t));
  }

  // ---------------------------------------------------------------------------
  // MathParser: the stateful tokenizer and evaluator
  // ---------------------------------------------------------------------------

  /** What one pass of `tokenize`'s loop does to the outcome of the rest of the loop. */
  lemma LexPass(e: string, i: nat, acc: seq<Token>, next: nat, after: seq<Token>, error: Option<MathError>)
    requires i < |e|
    requires NextLexeme(e[i..]).Fail? ==> error == Some(NextLexeme(e[i..]).error) && after == acc
    requires NextLexeme(e[i..]).Read? ==>
      error.None? && next == i + NextLexeme(e[i..]).width && after == acc + NextLexeme(e[i..]).emitted
    ensures error.Some? ==> LexOutcome(after, error) == LexRest(e[i..], acc)
    ensures error.None? ==> i < next <= |e| && LexRest(e[next..], after) == LexRest(e[i..], acc)
  {
    if NextLexeme(e[i..]).Read? {
      assert e[i..][NextLexeme(e[i..]).width..] == e[next..];
    }
  }

  /**
    One pass of `tokenize`'s loop over a number: from `start`, where a number
    begins, to `end`, where its run of digits and dots stops.
  */
  lemma LexNumberStep(e: string, start: nat, end: nat)
    requires start < end <= |e|
    requires IsDigit(e[start]) || (e[start] == '.' && start + 1 < |e| && IsDigit(e[start + 1]))
    requires forall k :: start <= k < end ==> IsNumberChar(e[k])
    requires end == |e| || !IsNumberChar(e[end])
    ensures NumberValue(e[start..end]).None? ==> NextLexeme(e[start..]) == Fail(InvalidNumber(e[start..end]))
    ensures NumberValue(e[start..end]).Some? ==>
      NextLexeme(e[start..]) == Read([Number(NumberValue(e[start..end]).value)], end - start)
  {
    var text, rest := e[start..end], e[end..];
    assert e[start..] == text + rest;
    NumberRunOf(text, rest);
    assert e[start..][0] == e[start] && (start + 1 < |e| ==> e[start..][1] == e[start + 1]);
  }

  /** One pass of `tokenize`'s loop over a name, from `start` to the end of its run of name characters. */
  lemma LexNameStep(e: string, start: nat, end: nat)
    requires start < end <= |e|
    requires forall k :: start <= k < end ==> IsNameChar(e[k])
    requires end == |e| || !IsNameChar(e[end])
    ensures NextLexeme(e[start..]) == Read([NameToken(e[start..end])], end - start)
  {
    var name, rest := e[start..end], e[end..];
    assert e[start..] == name + rest;
    NameRunOf(name, rest);
    assert e[start..][0] == e[start] && !IsDigit(e[start]) && e[start] != '.' && !IsOperator(e[start]);
  }

  /** One pass of `tokenize`'s loop over an operator, a blank, or a character it does not know. */
  lemma LexCharStep(e: string, i: nat)
    requires i < |e| && !IsDigit(e[i]) && !(e[i] == '.' && i + 1 < |e| && IsDigit(e[i + 1])) && !IsNameChar(e[i])
    ensures IsOperator(e[i]) ==> NextLexeme(e[i..]) == Read([Operator(e[i])], 1)
    ensures !IsOperator(e[i]) && (e[i] == ' ' || e[i] == '\t') ==> NextLexeme(e[i..]) == Read([], 1)
    ensures !IsOperator(e[i]) && e[i] != ' ' && e[i] != '\t' ==> NextLexeme(e[i..]) == Fail(UnknownCharacter(e[i]))
  {
    assert e[i..][0] == e[i] && (i + 1 < |e| ==> e[i..][1] == e[i + 1]);
  }

  /** The inner loop of `tokenize` over a number: the end of the run of digits and dots from `start`. */
  method ScanNumber(expression: string, start: nat) returns (i: nat)
    requires start <= |expression|
    ensures start <= i <= |expression|
    ensures forall k :: start <= k < i ==> IsNumberChar(expression[k])
    ensures i == |expression| || !IsNumberChar(expression[i])
  {
    i := start;
    while i < |expression| && IsNumberChar(expression[i])
      invariant start <= i <= |expression|
      invariant forall k :: start <= k < i ==> IsNumberChar(expression[k])
    {
      i := i + 1;
    }
  }

  /** The inner loop of `tokenize` over a name: the end of the run of name characters from `start`. */
  method ScanName(expression: string, start: nat) returns (i: nat)
    requires start <= |expression|
    ensures start <= i <= |expression|
    ensures forall k :: start <= k < i ==> IsNameChar(expression[k])
    ensures i == |expression| || !IsNameChar(expression[i])
  {
    i := start;
    while i < |expression| && IsNameChar(expression[i])
      invariant start <= i <= |expression|
      invariant forall k :: start <= k < i ==> IsNameChar(expression[k])
    {
      i := i + 1;
    }
  }

  /**
    `MathParser`: the token list, the read position and the (unused)
    parenthesis counter, updated in place by `tokenize` and the evaluator.
    The table of math functions is fixed at construction.
  */
  class MathParser {
    var tokens: seq<Token>
    var index: nat
    var parenCount: nat
    const functions: MathFn

    constructor(functions: MathFn)
      ensures tokens == [] && index == 0 && parenCount == 0
      ensures this.functions == functions
    {
      tokens := [];
      index := 0;
      parenCount := 0;
      this.functions := functions;
    }

    /**
      `tokenize`: resets the parser, then reads the text left to right. On
      success the list ends with `EOF`; on a `ValueError` it keeps the tokens
      read before the error.
    */
    method Tokenize(expression: string) returns (error: Option<MathError>)
      modifies this
      ensures LexOutcome(tokens, error) == Lex(expression)
      ensures index == 0 && parenCount == 0
    {
      tokens := [];
      index := 0;
      parenCount := 0;
      if Strip(expression) == [] {
        return Some(EmptyInput);
      }
      error := ReadTokens(expression);
    }

    /** The `while i < len(expression)` loop of `tokenize`, then the closing `EOF`. */
    method ReadTokens(expression: string) returns (error: Option<MathError>)
      modifies this`tokens
      ensures LexOutcome(tokens, error) == LexRest(expression, old(tokens))
    {
      ghost var outcome := LexRest(expression, tokens);
      assert expression[0..] == expression;
      var i := 0;
      while i < |expression|
        invariant i <= |expression|
        invariant LexRest(expression[i..], tokens) == outcome
        decreases |expression| - i
      {
        ghost var at, before := i, tokens;
        i, error := ReadLexeme(expression, i);
        LexPass(expression, at, before, i, tokens, error);
        if error.Some? {
          return;
        }
      }
      assert expression[i..] == [];
      tokens := tokens + [EOF];
      return None;
    }

    /** One pass of `tokenize`'s `while` loop from position `i`: it appends what it reads, or raises. */
    method ReadLexeme(expression: string, i: nat) returns (next: nat, error: Option<MathError>)
      requires i < |expression|
      modifies this`tokens
      ensures NextLexeme(expression[i..]).Fail? ==>
        error == Some(NextLexeme(expression[i..]).error) && tokens == old(tokens)
      ensures NextLexeme(expression[i..]).Read? ==>
        && error.None?
        && next == i + NextLexeme(expression[i..]).width
        && tokens == old(tokens) + NextLexeme(expression[i..]).emitted
    {
      var c := expression[i];
      if IsDigit(c) || (c == '.' && i + 1 < |expression| && IsDigit(expression[i + 1])) {
        next := ScanNumber(expression, i);
        LexNumberStep(expression, i, next);
        var v := NumberValue(expression[i..next]);
        if v.None? {
          return next, Some(InvalidNumber(expression[i..next]));
        }
        tokens := tokens + [Number(v.value)];
        return next, None;
      }
      if IsNameChar(c) {
        next := ScanName(expression, i);
        LexNameStep(expression, i, next);
        tokens := tokens + [NameToken(expression[i..next])];
        return next, None;
      }
      LexCharStep(expression, i);
      if IsOperator(c) {
        tokens := tokens + [Operator(c)];
        return i + 1, None;
      } else if c == ' ' || c == '\t' {
        return i + 1, None;
      } else {
        return i, Some(UnknownCharacter(c));
      }
    }

    /** `consume`: the current token when it has the expected kind, which it then steps over. */
    method Consume(expected: Kind) returns (r: Result<Token, MathError>)
      requires index < |tokens|
      modifies this`index
      ensures KindOf(tokens[old(index)]) == expected ==> r == Ok(tokens[old(index)]) && index == old(index) + 1
      ensures KindOf(tokens[old(index)]) != expected ==>
        r == Err(Expected(expected, KindOf(tokens[old(index)]))) && index == old(index)
    {
      if KindOf(tokens[index]) == expected {
        index := index + 1;
        return Ok(tokens[index - 1]);
      } else {
        return Err(Expected(expected, KindOf(tokens[index])));
      }
    }

    /** `expr`: reads a sum from the current token; the value is that of `ExprAt`, and it stops before `EOF`. */
    method Expr(env: Env) returns (r: Result<real, MathError>)
      requires Ended(tokens) && index < |tokens|
      modifies this`index
      ensures old(index) <= index < |tokens|
      ensures Attach(r, index) == ExprAt(functions, env, tokens, old(index))
      decreases |tokens| - index, 3
    {
      r := Term(env);
      if r.Ok? {
        r := AddTerms(env, r.value);
      }
    }

    /** The `while` loop of `expr`, entered with `result == acc`: `+` and `-` terms, folded from the left. */
    method AddTerms(env: Env, acc: real) returns (r: Result<real, MathError>)
      requires Ended(tokens) && index < |tokens|
      modifies this`index
      ensures old(index) <= index < |tokens|
      ensures Attach(r, index) == ExprLoop(functions, env, tokens, old(index), acc)
      decreases |tokens| - index, 3
    {
      ghost var start := index;
      var result := acc;
      while IsAddOp(tokens[index])
        invariant start <= index < |tokens|
        invariant ExprLoop(functions, env, tokens, index, result) == ExprLoop(functions, env, tokens, start, acc)
        decreases |tokens| - index
      {
        ghost var at := index;
        ghost var sign := if tokens[at].op == '+' then Plus else Minus;
        var op := Consume(OperatorKind);
        var v := Term(env);
        ExprLoopStep(functions, env, tokens, at, index, result, sign, v);
        if v.Err? {
          return v;
        }
        if op.value.op == '+' {
          result := result + v.value;
        } else {
          result := result - v.value;
        }
      }
      return Ok(result);
    }

    /** `term`: reads a product from the current token; the value is that of `TermAt`. */
    method Term(env: Env) returns (r: Result<real, MathError>)
      requires Ended(tokens) && index < |tokens|
      modifies this`index
      ensures old(index) <= index < |tokens|
      ensures Attach(r, index) == TermAt(functions, env, tokens, old(index))
      decreases |tokens| - index, 2
    {
      r := Factor(env);
      if r.Ok? {
        r := MulFactors(env, r.value);
      }
    }

    /** The `while` loop of `term`, entered with `result == acc`: `*`, `/` and `%` factors, folded from the left. */
    method MulFactors(env: Env, acc: real) returns (r: Result<real, MathError>)
      requires Ended(tokens) && index < |tokens|
      modifies this`index
      ensures old(index) <= index < |tokens|
      ensures Attach(r, index) == TermLoop(functions, env, tokens, old(index), acc)
      decreases |tokens| - index, 2
    {
      ghost var start := index;
      var result := acc;
      while IsMulOp(tokens[index])
        invariant start <= index < |tokens|
        invariant TermLoop(functions, env, tokens, index, result) == TermLoop(functions, env, tokens, start, acc)
        decreases |tokens| - index
      {
        ghost var at := index;
        ghost var mul := if tokens[at].op == '*' then Times else if tokens[at].op == '/' then Over else Mod;
        var op := Consume(OperatorKind);
        var v := Factor(env);
        TermLoopStep(functions, env, tokens, at, index, result, mul, v);
        if v.Err? {
          return v;
        }
        var step := MulStep(op.value.op, result, v.value);
        if step.Err? {
          return Err(step.error);
        }
        result := step.value;
      }
      return Ok(result);
    }

    /** `factor`: a call, a signed factor, a number, a variable or a group; the value is that of `FactorAt`. */
    method Factor(env: Env) returns (r: Result<real, MathError>)
      requires Ended(tokens) && index < |tokens|
      modifies this`index
      ensures old(index) <= index < |tokens|
      ensures Attach(r, index) == FactorAt(functions, env, tokens, old(index))
      decreases |tokens| - index, 1
    {
      var t := tokens[index];
      if t.Function? {
        r := CallFactor(env);
      } else if IsAddOp(t) {
        var op := Consume(OperatorKind);
        var v := Factor(env);
        if v.Err? {
          return v;
        }
        return Ok(if op.value.op == '+' then v.value else -v.value);
      } else if t.Number? {
        var n := Consume(NumberKind);
        return Ok(n.value.n);
      } else if t.Variable? {
        var name := Consume(VariableKind);
        if name.value.name in env {
          return Ok(env[name.value.name]);
        } else {
          return Err(UnknownVariable(name.value.name));
        }
      } else if t == Operator('(') {
        r := GroupFactor(env);
      } else {
        return Err(UnexpectedToken(KindOf(t)));
      }
    }

    /** The function-call arm of `factor`: name, any operator, argument, any operator. */
    method CallFactor(env: Env) returns (r: Result<real, MathError>)
      requires Ended(tokens) && index < |tokens| && tokens[index].Function?
      modifies this`index
      ensures old(index) <= index < |tokens|
      ensures Attach(r, index) == FactorAt(functions, env, tokens, old(index))
      decreases |tokens| - index, 0
    {
      var name := Consume(FunctionKind);
      var open := Consume(OperatorKind);
      if open.Err? {
        return Err(open.error);
      }
      var arg := Expr(env);
      if arg.Err? {
        return arg;
      }
      var close := Consume(OperatorKind);
      if close.Err? {
        return Err(close.error);
      }
      match functions(name.value.name, arg.value)
      case None => return Err(DomainError(name.value.name));
      case Some(v) => return Ok(v);
    }

    /** The parenthesis arm of `factor`: `(`, a sum, then any operator. */
    method GroupFactor(env: Env) returns (r: Result<real, MathError>)
      requires Ended(tokens) && index < |tokens| && tokens[index] == Operator('(')
      modifies this`index
      ensures old(index) <= index < |tokens|
      ensures Attach(r, index) == FactorAt(functions, env, tokens, old(index))
      decreases |tokens| - index, 0
    {
      var open := Consume(OperatorKind);
      r := Expr(env);
      if r.Err? {
        return;
      }
      var close := Consume(OperatorKind);
      if close.Err? {
        return Err(close.error);
      }
    }

    /** `parse`: tokenize the text, then evaluate one `expr`; the result is `Evaluate`'s. */
    method Parse(expression: string, variables: Option<Env>) returns (r: Result<real, MathError>)
      modifies this
      ensures r == Evaluate(functions, expression, variables)
    {
      var env: Env := if variables.None? then map[] else variables.value;
      var error := Tokenize(expression);
      if error.Some? {
        return Err(error.value);
      }
      LexEndsWithEOF(expression);
      r := Expr(env);
    }
  }
}
