/**
  The path-expression engine of typecrate/expression.py: a scanner that turns a
  path such as `item.value[1:3]` into an ordered list of (operation, attribute)
  steps, and an evaluator that walks those steps over dynamic data.
*/
module Expression {
  import opened Wrappers
  import opened PyText
  import opened PyValue
  import opened PySeq

  /** What `extract_attribute` makes of one segment: a str, an int, or a `[start, end, step]` list. */
  datatype Attr =
    | Name(s: string)
    | Index(i: int)
    | Slice(start: Option<int>, stop: Option<int>, step: Option<int>)

  datatype OperationType = Obj | Arr | ArrSelect | ArrSlice

  datatype Step = Step(op: OperationType, attr: Attr)

  /** `InvalidSourceExpression`, told apart by the condition that raised it. */
  datatype SyntaxError =
    | SliceNotInteger        // a slice part that `int()` rejects
    | SliceTooLong           // more than three slice parts
    | BracketInsideBrackets  // `[` while already inside `[...]`
    | BracketNotOpen         // `]` outside brackets
    | IndexAfterOperator     // `.`, `?` or `^` directly followed by `[`
    | UnmatchedBracket       // `[` never closed

  // ---------------------------------------------------------------------------
  // Segments

  /** `to_int`: the empty text is None, anything else goes through `int()`. */
  function ToInt(s: string): (r: Result<Option<int>, SyntaxError>)
    ensures r == Ok(None) <==> s == ""
    ensures s != "" ==> (r.Ok? <==> ParseInt(s).Some?)
    ensures s != "" && r.Ok? ==> r.value == ParseInt(s)
  {
    if s == "" then Ok(None)
    else match ParseInt(s)
      case Some(n) => Ok(Some(n))
      case None => Err(SliceNotInteger)
  }

  /** `list(map(to_int, parts))`: fails when any part fails. */
  function ToInts(parts: seq<string>): (r: Result<seq<Option<int>>, SyntaxError>)
    ensures r.Ok? <==> forall k :: 0 <= k < |parts| ==> ToInt(parts[k]).Ok?
    ensures r.Ok? ==> |r.value| == |parts| && forall k :: 0 <= k < |parts| ==> r.value[k] == ToInt(parts[k]).value
    ensures r.Err? ==> r.error == SliceNotInteger
    decreases |parts|
  {
    if parts == [] then Ok([])
    else match ToInt(parts[0])
      case Err(e) => Err(e)
      case Ok(x) =>
        match ToInts(parts[1..])
        case Err(e) =>
          assert forall k :: 1 <= k < |parts| ==> parts[k] == parts[1..][k - 1];
          Err(e)
        case Ok(xs) => Ok([x] + xs)
  }

  function RemoveSuffix(s: string, c: char): string {
    if |s| > 0 && s[|s| - 1] == c then s[..|s| - 1] else s
  }

  function RemovePrefix(s: string, c: char): string {
    if |s| > 0 && s[0] == c then s[1..] else s
  }

  /** The text `extract_attribute` classifies: stripped, then one trailing `]` and one leading `[` dropped. */
  function Core(segment: string): string {
    RemovePrefix(RemoveSuffix(Strip(segment), ']'), '[')
  }

  /** A colon-separated slice: every part must be an integer or empty, at most three parts. */
  function SliceOf(parts: seq<string>): (r: Result<Attr, SyntaxError>)
    requires |parts| >= 2
    ensures r.Ok? ==> r.value.Slice?
  {
    match ToInts(parts)
    case Err(e) => Err(e)
    case Ok(bounds) =>
      if |bounds| > 3 then Err(SliceTooLong)
      else if |bounds| == 2 then Ok(Slice(bounds[0], bounds[1], Some(1)))
      else Ok(Slice(bounds[0], bounds[1], bounds[2]))
  }

  /** The classification `extract_attribute` applies to the core text. */
  function Classify(a: string): (r: Result<Attr, SyntaxError>)
    ensures r.Ok? && r.value.Name? ==> r.value.s == a
    ensures (r.Ok? && r.value.Index?) <==> IsDigits(a)
    ensures r.Ok? && r.value.Index? ==> r.value.i == DigitsValue(a)
    ensures (r.Err? || r.value.Slice?) <==> ':' in a
  {
    assert ':' in a ==> !IsAlpha(a) && !IsDigits(a) by {
      if ':' in a {
        var k :| 0 <= k < |a| && a[k] == ':';
        assert !IsLetter(a[k]) && !IsDigit(a[k]);
      }
    }
    assert IsAlpha(a) ==> !IsDigits(a) by {
      if IsAlpha(a) { assert IsLetter(a[0]); }
    }
    if IsAlpha(a) || a == "*" then Ok(Name(a))
    else if IsDigits(a) then Ok(Index(DigitsValue(a)))
    else if ':' in a then SliceOf(Split(a, ':'))
    else Ok(Name(a))
  }

  /** `extract_attribute`: a name (also `*`), a non-negative index, or a three-part slice. */
  function ExtractAttribute(segment: string): (r: Result<Attr, SyntaxError>)
    ensures r == Classify(Core(segment))
    ensures r.Ok? && r.value.Name? ==> r.value.s == Core(segment)
    ensures (r.Ok? && r.value.Index?) <==> IsDigits(Core(segment))
    ensures r.Ok? && r.value.Index? ==> r.value.i >= 0
    ensures (r.Err? || r.value.Slice?) <==> ':' in Core(segment)
  {
    Classify(Core(segment))
  }

  /** The text `str(b)` for a slice bound, the empty text for None. */
  function ShowBound(b: Option<int>): (r: string)
    ensures forall k :: 0 <= k < |r| ==> r[k] == '-' || IsDigit(r[k])
  {
    match b
    case None => ""
    case Some(n) => ShowInt(n)
  }

  /** The characters slice text is made of. */
  predicate SliceChar(c: char) {
    c == ':' || c == '-' || IsDigit(c)
  }

  /** Text that does not start or end with whitespace or a bracket is its own core. */
  lemma CoreUnchanged(t: string)
    requires |t| > 0 && !IsSpace(t[0]) && t[0] != '[' && !IsSpace(t[|t| - 1]) && t[|t| - 1] != ']'
    ensures Core(t) == t
  {
    StripUnchanged(t);
    assert RemoveSuffix(t, ']') == t;
  }

  lemma {:induction false} ToIntsShowBounds(parts: seq<string>, bounds: seq<Option<int>>)
    requires |parts| == |bounds|
    requires forall k :: 0 <= k < |parts| ==> parts[k] == ShowBound(bounds[k])
    ensures ToInts(parts) == Ok(bounds)
    decreases |parts|
  {
    if parts != [] {
      var b := bounds[0];
      if b.Some? { ParseIntRoundTrip(b.value); }
      ToIntsShowBounds(parts[1..], bounds[1..]);
      assert [bounds[0]] + bounds[1..] == bounds;
    }
  }

  /** Joined slice bounds start and end with a slice character and hold a colon. */
  lemma {:induction false} JoinShape(parts: seq<string>)
    requires |parts| >= 2
    requires forall k, j :: 0 <= k < |parts| && 0 <= j < |parts[k]| ==> SliceChar(parts[k][j])
    ensures var t := Join(parts, ':');
      |t| > 0 && ':' in t && SliceChar(t[0]) && SliceChar(t[|t| - 1])
    decreases |parts|
  {
    var t := Join(parts, ':');
    var rest := Join(parts[1..], ':');
    assert t == parts[0] + [':'] + rest;
    assert t[|parts[0]|] == ':';
    if |parts| == 2 {
      assert rest == parts[1];
      if |parts[1]| > 0 { assert t[|t| - 1] == parts[1][|parts[1]| - 1]; }
    } else {
      JoinShape(parts[1..]);
      assert t[|t| - 1] == rest[|rest| - 1];
    }
    if |parts[0]| > 0 { assert t[0] == parts[0][0]; }
  }

  /** Text holding a colon is classified as a slice of its colon-separated parts. */
  lemma ClassifyColon(t: string)
    requires ':' in t
    ensures Classify(t) == SliceOf(Split(t, ':'))
  {
    var j :| 0 <= j < |t| && t[j] == ':';
    assert !IsLetter(t[j]) && !IsDigit(t[j]);
    assert !IsAlpha(t) && t != "*" && !IsDigits(t);
  }

  lemma ShowBoundsNoColon(parts: seq<string>, bounds: seq<Option<int>>)
    requires |parts| == |bounds|
    requires forall k :: 0 <= k < |parts| ==> parts[k] == ShowBound(bounds[k])
    ensures forall k :: 0 <= k < |parts| ==> ':' !in parts[k]
    ensures forall k, j :: 0 <= k < |parts| && 0 <= j < |parts[k]| ==> SliceChar(parts[k][j])
  {
    forall k | 0 <= k < |parts| ensures ':' !in parts[k] {
      var sb := ShowBound(bounds[k]);
      assert forall j :: 0 <= j < |sb| ==> sb[j] != ':';
    }
  }

  /** Text that starts and ends with a slice character has nothing for the stripping to remove. */
  lemma SliceTextCore(t: string)
    requires |t| > 0 && SliceChar(t[0]) && SliceChar(t[|t| - 1])
    ensures Core(t) == t
  {
    CoreUnchanged(t);
  }

  /** Printed slice bounds joined by `:` are extracted as the slice those parts describe. */
  lemma ExtractJoinedBounds(parts: seq<string>, bounds: seq<Option<int>>)
    requires |parts| == |bounds| >= 2
    requires forall k :: 0 <= k < |parts| ==> parts[k] == ShowBound(bounds[k])
    ensures ExtractAttribute(Join(parts, ':')) == SliceOf(parts)
    ensures ToInts(parts) == Ok(bounds)
  {
    var t := Join(parts, ':');
    ShowBoundsNoColon(parts, bounds);
    JoinShape(parts);
    SliceTextCore(t);
    SplitJoin(parts, ':');
    ClassifyColon(t);
    ToIntsShowBounds(parts, bounds);
  }

  /**
    `":".join` of three parts, written out: it lets `ExtractSliceRoundTrip`
    state its text as `start:end:step` rather than as a join.
  */
  lemma JoinThree(a: string, b: string, c: string)
    ensures Join([a, b, c], ':') == a + ":" + b + ":" + c
  {
    assert [a, b, c][1..] == [b, c];
    assert Join([b, c], ':') == b + ":" + c;
  }

  /** Printing three bounds as `start:end:step` and extracting gives the same slice back. */
  lemma ExtractSliceRoundTrip(start: Option<int>, stop: Option<int>, step: Option<int>)
    ensures ExtractAttribute(ShowBound(start) + ":" + ShowBound(stop) + ":" + ShowBound(step))
            == Ok(Slice(start, stop, step))
  {
    var parts := [ShowBound(start), ShowBound(stop), ShowBound(step)];
    ExtractJoinedBounds(parts, [start, stop, step]);
    JoinThree(parts[0], parts[1], parts[2]);
  }

  /** A two-part slice `start:end` gets step 1 appended. */
  lemma ExtractSliceTwoParts(start: Option<int>, stop: Option<int>)
    ensures ExtractAttribute(ShowBound(start) + ":" + ShowBound(stop)) == Ok(Slice(start, stop, Some(1)))
  {
    var parts := [ShowBound(start), ShowBound(stop)];
    ExtractJoinedBounds(parts, [start, stop]);
    assert Join(parts, ':') == ShowBound(start) + ":" + ShowBound(stop);
  }

  /** Four or more well-formed parts are rejected as too long. */
  lemma ExtractSliceTooLong(bounds: seq<Option<int>>)
    requires |bounds| > 3
    ensures ExtractAttribute(Join(seq(|bounds|, k requires 0 <= k < |bounds| => ShowBound(bounds[k])), ':'))
            == Err(SliceTooLong)
  {
    ExtractJoinedBounds(seq(|bounds|, k requires 0 <= k < |bounds| => ShowBound(bounds[k])), bounds);
  }

  lemma ParseIntWord(word: string)
    requires IsAlpha(word)
    ensures ParseInt(word) == None
  {
    assert IsLetter(word[0]) && IsLetter(word[|word| - 1]);
    StripUnchanged(word);
    assert !IsDigit(word[0]);
  }

  lemma WordSliceText(word: string, stop: Option<int>)
    requires IsAlpha(word)
    ensures var t := word + ":" + ShowBound(stop);
      Core(t) == t && ':' in t && Split(t, ':') == [word, ShowBound(stop)]
  {
    var sb := ShowBound(stop);
    var t := word + ":" + sb;
    assert t[0] == word[0] && IsLetter(word[0]);
    assert SliceChar(t[|t| - 1]) by {
      if sb == [] { assert t[|t| - 1] == ':'; }
      else { assert t[|t| - 1] == sb[|sb| - 1]; }
    }
    CoreUnchanged(t);
    assert t[|word|] == ':';
    ShowBoundsNoColon([sb], [stop]);
    assert forall k :: 0 <= k < |word| ==> word[k] != ':';
    SplitAfterPart(word, ':', sb);
  }

  /** A slice part that is a word, not an integer, is rejected. */
  lemma ExtractSliceNotInteger(word: string, stop: Option<int>)
    requires IsAlpha(word)
    ensures ExtractAttribute(word + ":" + ShowBound(stop)) == Err(SliceNotInteger)
  {
    var t := word + ":" + ShowBound(stop);
    WordSliceText(word, stop);
    ClassifyColon(t);
    ParseIntWord(word);
    assert !ToInt([word, ShowBound(stop)][0]).Ok?;
  }

  /** A decimal index, also when it still carries the closing `]`, is extracted as that index. */
  lemma ExtractIndexRoundTrip(n: nat)
    ensures ExtractAttribute(ShowNat(n)) == Ok(Index(n))
    ensures ExtractAttribute(ShowNat(n) + "]") == Ok(Index(n))
  {
    var s := ShowNat(n);
    assert IsDigit(s[0]) && IsDigit(s[|s| - 1]);
    StripUnchanged(s);
    assert RemoveSuffix(s, ']') == s;
    assert Core(s) == s;
    var t := s + "]";
    assert t[0] == s[0] && t[|t| - 1] == ']';
    StripUnchanged(t);
    assert RemoveSuffix(t, ']') == s;
    assert Core(t) == s;
    assert !IsAlpha(s) by { assert !IsLetter(s[0]); }
    ShowNatRoundTrip(n);
  }

  /** An alphabetic segment is extracted as that name. */
  lemma ExtractName(n: string)
    requires IsAlpha(n)
    ensures ExtractAttribute(n) == Ok(Name(n))
  {
    assert IsLetter(n[0]) && IsLetter(n[|n| - 1]);
    StripUnchanged(n);
    assert RemoveSuffix(n, ']') == n;
    assert Core(n) == n;
  }

  /** `strip` and `int()` also drop the information separators `\x1c` to `\x1f`. */
  lemma SeparatorsStripped()
    ensures ExtractAttribute("\U{001C}a") == Ok(Name("a"))
    ensures ToInt("\U{001F}7") == Ok(Some(7))
  {
    var s := "\U{001C}a";
    assert s[1..] == "a" && s[..|s| - 1] == "\U{001C}";
    assert StripRight(s) == s;
    assert StripLeft(s) == StripLeft("a");
    assert Strip(s) == "a";
    ExtractName("a");
    assert Core("a") == "a";
    var t := "\U{001F}7";
    assert t[1..] == "7";
    assert Strip(t) == "7";
    assert DigitsValue("7") == 7 by { assert "7"[..0] == []; }
  }

  function RemoveChar(s: string, c: char): string
    decreases |s|
  {
    if s == [] then [] else (if s[0] == c then [] else [s[0]]) + RemoveChar(s[1..], c)
  }

  lemma {:induction false} RemoveCharMembers(s: string, c: char)
    ensures forall x :: x in RemoveChar(s, c) <==> x in s && x != c
    decreases |s|
  {
    if s != [] {
      RemoveCharMembers(s[1..], c);
      assert forall x :: x in s <==> x == s[0] || x in s[1..];
    }
  }

  lemma {:induction false} RemoveCharAbsent(s: string, c: char)
    requires c !in s
    ensures RemoveChar(s, c) == s
    decreases |s|
  {
    if s != [] {
      RemoveCharAbsent(s[1..], c);
      assert [s[0]] + s[1..] == s;
    }
  }

  /** `format_attribute`: the attribute without its `?` and `^` characters. */
  function FormatAttribute(attr: string): string {
    RemoveChar(RemoveChar(attr, '?'), '^')
  }

  /** `format_attribute` drops every `?` and `^` and keeps every other character. */
  lemma FormatAttributeSpec(attr: string)
    ensures '?' !in FormatAttribute(attr) && '^' !in FormatAttribute(attr)
    ensures forall x :: x in FormatAttribute(attr) <==> x in attr && x != '?' && x != '^'
  {
    RemoveCharMembers(attr, '?');
    RemoveCharMembers(RemoveChar(attr, '?'), '^');
  }

  /** A name without `?` and `^` is left as it is. */
  lemma FormatAttributeKeeps(attr: string)
    requires '?' !in attr && '^' !in attr
    ensures FormatAttribute(attr) == attr
  {
    RemoveCharAbsent(attr, '?');
    RemoveCharAbsent(attr, '^');
  }

  lemma FormatAttributeIdempotent(attr: string)
    ensures FormatAttribute(FormatAttribute(attr)) == FormatAttribute(attr)
  {
    FormatAttributeSpec(attr);
    FormatAttributeKeeps(FormatAttribute(attr));
  }

  /** `get_operation_type`: OBJ outside brackets; inside, ARR for `*`, ARR_SLICE for a slice, else ARR_SELECT. */
  function OperationTypeOf(attr: Attr, inBracket: bool): (op: OperationType)
    ensures op == Obj <==> !inBracket
    ensures inBracket ==> (op == Arr <==> attr == Name("*"))
    ensures inBracket ==> (op == ArrSlice <==> attr.Slice?)
  {
    if inBracket then
      if attr == Name("*") then Arr else if attr.Slice? then ArrSlice else ArrSelect
    else Obj
  }

  /** Python truthiness of an attribute: the empty name and the index 0 are falsy. */
  predicate AttrTruthy(a: Attr) {
    match a
    case Name(s) => s != ""
    case Index(i) => i != 0
    case Slice(_, _, _) => true
  }

  // ---------------------------------------------------------------------------
  // The scanner

  /** The separators `[`, `]`, `.` and the unary operators `?`, `^`. */
  predicate IsBoundary(c: char) {
    c == '[' || c == ']' || c == '.' || c == '?' || c == '^'
  }

  /**
    A segment classifier. The scanner is stated for any classifier, so that what
    is proved about scanning does not depend on how a segment is classified;
    `Parse` uses `ExtractAttribute`.
  */
  type Extractor = string -> Result<Attr, SyntaxError>

  /**
    What `Expression.parse` returns once its loop is at `index` with the given
    `start`, `br_margin`, `in_brackets` and steps so far: one call per iteration.
  */
  function ScanFrom(extract: Extractor, e: string, index: nat, start: nat, br: int, inBr: bool, acc: seq<Step>)
    : Result<seq<Step>, SyntaxError>
    requires start <= index <= |e|
    decreases |e| - index, 1
  {
    if index == |e| then
      if br > 0 then Err(UnmatchedBracket) else Ok(acc)
    else if IsBoundary(e[index]) || index == |e| - 1 then
      var end := if index == |e| - 1 then index + 1 else index;
      ScanSegment(extract, e, index, br, inBr, acc, extract(e[start..end]))
    else ScanFrom(extract, e, index + 1, start, br, inBr, acc)
  }

  /** The rest of an iteration at a boundary, once the segment before it has been extracted as `x`. */
  function ScanSegment(extract: Extractor, e: string, index: nat, br: int, inBr: bool, acc: seq<Step>,
                       x: Result<Attr, SyntaxError>): Result<seq<Step>, SyntaxError>
    requires index < |e|
    decreases |e| - index, 0
  {
    match x
    case Err(err) => Err(err)
    case Ok(attr) =>
      var acc' := if AttrTruthy(attr) then acc + [Step(OperationTypeOf(attr, inBr), attr)] else acc;
      var c := e[index];
      if c == '[' then
        if inBr then Err(BracketInsideBrackets) else ScanFrom(extract, e, index + 1, index + 1, br + 1, true, acc')
      else if c == ']' then
        if !inBr then Err(BracketNotOpen) else ScanFrom(extract, e, index + 1, index + 1, br - 1, false, acc')
      else if index < |e| - 2 && e[index + 1] == '[' then Err(IndexAfterOperator)
      else ScanFrom(extract, e, index + 1, index + 1, br, inBr, acc')
  }

  /** The steps `Expression.parse` produces for a whole expression. */
  function Parse(e: string): Result<seq<Step>, SyntaxError> {
    ScanFrom(ExtractAttribute, e, 0, 0, 0, false, [])
  }

  /** `Expression.parse`. */
  method ParseExpression(expression: string) returns (r: Result<seq<Step>, SyntaxError>)
    ensures r == Parse(expression)
  {
    r := Scan(ExtractAttribute, expression);
  }

  /** The loop of `Expression.parse`, with `extract` in place of `extract_attribute`. */
  method Scan(extract: Extractor, expression: string) returns (r: Result<seq<Step>, SyntaxError>)
    ensures r == ScanFrom(extract, expression, 0, 0, 0, false, [])
  {
    var start, index, brMargin := 0, 0, 0;
    var inBrackets := false;
    var n := |expression|;
    var attrs: seq<Step> := [];
    while index < n
      invariant start <= index <= n
      invariant ScanFrom(extract, expression, index, start, brMargin, inBrackets, attrs) == ScanFrom(extract, expression, 0, 0, 0, false, [])
    {
      var c := expression[index];
      if IsBoundary(c) || index == n - 1 {
        var end := if index == n - 1 then index + 1 else index;
        var extracted := extract(expression[start..end]);
        if extracted.Err? {
          return Err(extracted.error);
        }
        var attribute := extracted.value;
        var operation := OperationTypeOf(attribute, inBrackets);
        start := index + 1;
        if AttrTruthy(attribute) {
          attrs := attrs + [Step(operation, attribute)];
        }
        if c == '[' {
          if inBrackets {
            return Err(BracketInsideBrackets);
          }
          inBrackets := true;
          brMargin := brMargin + 1;
        } else if c == ']' {
          if !inBrackets {
            return Err(BracketNotOpen);
          }
          inBrackets := false;
          brMargin := brMargin - 1;
        } else if index < n - 2 && expression[index + 1] == '[' {
          return Err(IndexAfterOperator);
        }
      }
      index := index + 1;
    }
    if brMargin > 0 {
      return Err(UnmatchedBracket);
    }
    return Ok(attrs);
  }

  // ---------------------------------------------------------------------------
  // What the scanner guarantees

  /** Whether a `[` is open after reading `s`; None once a `[` nests or a `]` closes nothing. */
  function BracketState(s: string): Option<bool>
    decreases |s|
  {
    if s == [] then Some(false)
    else match BracketState(s[..|s| - 1])
      case None => None
      case Some(open) =>
        var c := s[|s| - 1];
        if c == '[' then (if open then None else Some(true))
        else if c == ']' then (if open then Some(false) else None)
        else Some(open)
  }

  /** Brackets alternate `[`, `]`, `[`, `]`, ... and none is left open. */
  predicate BracketsBalanced(e: string) {
    BracketState(e) == Some(false)
  }

  /** No `.`, `?` or `^` is followed by `[` while at least two characters follow it. */
  predicate NoIndexAfterOperator(e: string) {
    forall k :: 0 <= k < |e| - 2 && (e[k] == '.' || e[k] == '?' || e[k] == '^') ==> e[k + 1] != '['
  }

  /** A recorded step: truthy attribute, operation as classified, and any index at least 1. */
  predicate StepWellFormed(s: Step) {
    && AttrTruthy(s.attr)
    && (s.op == Obj || s.op == OperationTypeOf(s.attr, true))
    && (s.attr.Index? ==> s.attr.i >= 1)
  }

  /** What a successful parse guarantees about the text and the steps it returns. */
  predicate WellFormedOutcome(e: string, r: Result<seq<Step>, SyntaxError>) {
    r.Ok? ==> && BracketsBalanced(e) && NoIndexAfterOperator(e)
              && forall k :: 0 <= k < |r.value| ==> StepWellFormed(r.value[k])
  }

  /** A classifier that never yields a negative index, as `ExtractAttribute` does not. */
  ghost predicate NonNegativeIndices(extract: Extractor) {
    forall s :: extract(s).Ok? && extract(s).value.Index? ==> extract(s).value.i >= 0
  }

  lemma {:induction false} ScanWellFormed(extract: Extractor, e: string, index: nat, start: nat, br: int, inBr: bool,
                                          acc: seq<Step>)
    requires NonNegativeIndices(extract)
    requires start <= index <= |e|
    requires BracketState(e[..index]) == Some(inBr)
    requires br == if inBr then 1 else 0
    requires forall k :: 0 <= k < index && k < |e| - 2 && (e[k] == '.' || e[k] == '?' || e[k] == '^') ==> e[k + 1] != '['
    requires forall k :: 0 <= k < |acc| ==> StepWellFormed(acc[k])
    ensures WellFormedOutcome(e, ScanFrom(extract, e, index, start, br, inBr, acc))
    decreases |e| - index, 1
  {
    if index == |e| {
      assert e[..index] == e;
    } else if IsBoundary(e[index]) || index == |e| - 1 {
      var end := if index == |e| - 1 then index + 1 else index;
      SegmentWellFormed(extract, e, index, br, inBr, acc, extract(e[start..end]));
    } else {
      assert e[..index + 1][..index] == e[..index];
      ScanWellFormed(extract, e, index + 1, start, br, inBr, acc);
    }
  }

  lemma {:induction false} SegmentWellFormed(extract: Extractor, e: string, index: nat, br: int, inBr: bool,
                                             acc: seq<Step>, x: Result<Attr, SyntaxError>)
    requires NonNegativeIndices(extract)
    requires index < |e|
    requires BracketState(e[..index]) == Some(inBr)
    requires br == if inBr then 1 else 0
    requires forall k :: 0 <= k < index && k < |e| - 2 && (e[k] == '.' || e[k] == '?' || e[k] == '^') ==> e[k + 1] != '['
    requires forall k :: 0 <= k < |acc| ==> StepWellFormed(acc[k])
    requires x.Ok? && x.value.Index? ==> x.value.i >= 0
    ensures WellFormedOutcome(e, ScanSegment(extract, e, index, br, inBr, acc, x))
    decreases |e| - index, 0
  {
    if x.Ok? {
      var attr := x.value;
      var acc' := if AttrTruthy(attr) then acc + [Step(OperationTypeOf(attr, inBr), attr)] else acc;
      assert forall k :: 0 <= k < |acc'| ==> StepWellFormed(acc'[k]);
      var c := e[index];
      assert e[..index + 1][..index] == e[..index];
      if c == '[' {
        if !inBr { ScanWellFormed(extract, e, index + 1, index + 1, br + 1, true, acc'); }
      } else if c == ']' {
        if inBr { ScanWellFormed(extract, e, index + 1, index + 1, br - 1, false, acc'); }
      } else if !(index < |e| - 2 && e[index + 1] == '[') {
        ScanWellFormed(extract, e, index + 1, index + 1, br, inBr, acc');
      }
    }
  }

  /**
    A path that parses has balanced brackets and no index right after `.`, `?`
    or `^`, and every step it records is well formed (so index 0 never survives).
  */
  lemma ParseWellFormed(e: string)
    ensures WellFormedOutcome(e, Parse(e))
  {
    assert e[..0] == [];
    ScanWellFormed(ExtractAttribute, e, 0, 0, 0, false, []);
  }

  lemma {:induction false} ScanWithoutBrackets(extract: Extractor, e: string, index: nat, start: nat, acc: seq<Step>)
    requires '[' !in e && start <= index <= |e|
    requires forall k :: 0 <= k < |acc| ==> acc[k].op == Obj
    ensures var r := ScanFrom(extract, e, index, start, 0, false, acc);
      r.Ok? ==> forall k :: 0 <= k < |r.value| ==> r.value[k].op == Obj
    decreases |e| - index
  {
    if index < |e| {
      if IsBoundary(e[index]) || index == |e| - 1 {
        var end := if index == |e| - 1 then index + 1 else index;
        var x := extract(e[start..end]);
        if x.Ok? {
          var attr := x.value;
          var acc' := if AttrTruthy(attr) then acc + [Step(OperationTypeOf(attr, false), attr)] else acc;
          assert forall k :: 0 <= k < |acc'| ==> acc'[k].op == Obj;
          if index < |e| - 1 {
            ScanSegmentNext(extract, e, index, 0, false, acc, attr);
            assert e[index] != '[';
            ScanWithoutBrackets(extract, e, index + 1, index + 1, acc');
          } else {
            SegmentAtLast(extract, e, 0, false, acc, attr);
          }
        }
      } else {
        ScanWithoutBrackets(extract, e, index + 1, start, acc);
      }
    }
  }

  /** Text without `[` never enters brackets, so every step it parses to is an OBJ step. */
  lemma ParseWithoutBrackets(e: string)
    requires '[' !in e
    ensures Parse(e).Ok? ==> forall k :: 0 <= k < |Parse(e).value| ==> Parse(e).value[k].op == Obj
  {
    ScanWithoutBrackets(ExtractAttribute, e, 0, 0, []);
  }

  /** The steps of a dotted path of names: one OBJ step per name, in order. */
  function ObjSteps(names: seq<string>): (r: seq<Step>)
    ensures |r| == |names|
  {
    seq(|names|, k requires 0 <= k < |names| => Step(Obj, Name(names[k])))
  }

  /** A classifier that reads an alphabetic segment as that name, as `ExtractAttribute` does. */
  ghost predicate ReadsNames(extract: Extractor) {
    forall n {:trigger extract(n)} :: IsAlpha(n) ==> extract(n) == Ok(Name(n))
  }

  lemma {:induction false} ScanLetters(extract: Extractor, e: string, i: nat, j: nat, start: nat, br: int, inBr: bool,
                                       acc: seq<Step>)
    requires start <= i <= j < |e|
    requires forall k :: i <= k < j ==> IsLetter(e[k])
    ensures ScanFrom(extract, e, i, start, br, inBr, acc) == ScanFrom(extract, e, j, start, br, inBr, acc)
    decreases j - i
  {
    if i < j { ScanLetters(extract, e, i + 1, j, start, br, inBr, acc); }
  }

  /** A name that runs to the end of the text becomes the last OBJ step. */
  lemma ScanLastName(extract: Extractor, e: string, p: nat, acc: seq<Step>)
    requires ReadsNames(extract)
    requires p < |e| && IsAlpha(e[p..])
    ensures ScanFrom(extract, e, p, p, 0, false, acc) == Ok(acc + [Step(Obj, Name(e[p..]))])
  {
    var n := e[p..];
    var i := |e| - 1;
    assert forall k :: p <= k < |e| ==> IsLetter(e[k]) by {
      forall k | p <= k < |e| ensures IsLetter(e[k]) { assert e[k] == n[k - p]; }
    }
    ScanLetters(extract, e, p, i, p, 0, false, acc);
    assert e[p..i + 1] == n;
    var acc' := acc + [Step(Obj, Name(n))];
    assert ScanFrom(extract, e, i, p, 0, false, acc) == ScanSegment(extract, e, i, 0, false, acc, Ok(Name(n)));
    assert ScanSegment(extract, e, i, 0, false, acc, Ok(Name(n))) == ScanFrom(extract, e, |e|, |e|, 0, false, acc');
  }

  /** A name followed by a `.` (and no `[` after it) becomes an OBJ step, and scanning resumes after the dot. */
  lemma ScanDottedName(extract: Extractor, e: string, p: nat, q: nat, acc: seq<Step>)
    requires ReadsNames(extract)
    requires p < q && q + 1 < |e| && IsAlpha(e[p..q]) && e[q] == '.' && e[q + 1] != '['
    ensures ScanFrom(extract, e, p, p, 0, false, acc)
            == ScanFrom(extract, e, q + 1, q + 1, 0, false, acc + [Step(Obj, Name(e[p..q]))])
  {
    var n := e[p..q];
    assert forall k :: p <= k < q ==> IsLetter(e[k]) by {
      forall k | p <= k < q ensures IsLetter(e[k]) { assert e[k] == n[k - p]; }
    }
    ScanLetters(extract, e, p, q, p, 0, false, acc);
  }

  lemma {:induction false} ScanNames(extract: Extractor, e: string, p: nat, names: seq<string>, acc: seq<Step>)
    requires ReadsNames(extract)
    requires |names| >= 1 && forall k :: 0 <= k < |names| ==> IsAlpha(names[k])
    requires p <= |e| && e[p..] == Join(names, '.')
    ensures ScanFrom(extract, e, p, p, 0, false, acc) == Ok(acc + ObjSteps(names))
    decreases |names|
  {
    var n := names[0];
    var q := p + |n|;
    if |names| == 1 {
      assert e[p..] == n;
      ScanLastName(extract, e, p, acc);
      assert ObjSteps(names) == [Step(Obj, Name(n))];
    } else {
      var rest := names[1..];
      assert e[p..] == n + ['.'] + Join(rest, '.');
      assert IsAlpha(rest[0]);
      JoinStartsWith(rest);
      assert e[p..q] == n;
      assert q + 1 < |e| && e[q] == '.' && IsLetter(e[q + 1]);
      ScanDottedName(extract, e, p, q, acc);
      assert e[q + 1..] == Join(rest, '.');
      ScanNames(extract, e, q + 1, rest, acc + [Step(Obj, Name(n))]);
      assert ObjSteps(names) == [Step(Obj, Name(n))] + ObjSteps(rest);
      assert acc + ObjSteps(names) == acc + [Step(Obj, Name(n))] + ObjSteps(rest);
    }
  }

  lemma JoinStartsWith(names: seq<string>)
    requires |names| >= 1 && |names[0]| > 0
    ensures |Join(names, '.')| >= |names[0]| && Join(names, '.')[0] == names[0][0]
  {
  }

  /** `"item.value.id"` parses to OBJ steps `item`, `value`, `id`: one per name, in order. */
  lemma ParseDottedNames(names: seq<string>)
    requires |names| >= 1 && forall k :: 0 <= k < |names| ==> IsAlpha(names[k])
    ensures Parse(Join(names, '.')) == Ok(ObjSteps(names))
  {
    var e := Join(names, '.');
    assert e[0..] == e;
    ExtractAttributeReadsNames();
    ScanNames(ExtractAttribute, e, 0, names, []);
    assert [] + ObjSteps(names) == ObjSteps(names);
  }

  lemma ExtractAttributeReadsNames()
    ensures ReadsNames(ExtractAttribute)
  {
    forall n | IsAlpha(n) ensures ExtractAttribute(n) == Ok(Name(n)) { ExtractName(n); }
  }

  /** Dropping one trailing `]` and one leading `[` from a slice leaves a slice. */
  lemma TrimSlice(seg: string, i: nat, j: nat) returns (i': nat, j': nat)
    requires i <= j <= |seg|
    ensures i <= i' <= j' <= j && RemovePrefix(RemoveSuffix(seg[i..j], ']'), '[') == seg[i'..j']
  {
    var v := RemoveSuffix(seg[i..j], ']');
    i', j' := i, j;
    if i < j && seg[j - 1] == ']' {
      assert v == seg[i..j - 1];
      j' := j - 1;
    }
    assert v == seg[i..j'];
    if i < j' && seg[i] == '[' {
      assert RemovePrefix(v, '[') == seg[i + 1..j'];
      i' := i + 1;
    }
  }

  /** The core of a segment is a contiguous piece of it. */
  lemma CoreSlice(seg: string) returns (i: nat, j: nat)
    ensures i <= j <= |seg| && Core(seg) == seg[i..j]
  {
    var t := StripRight(seg);
    StripRightSpec(seg);
    StripLeftSpec(t);
    var u := StripLeft(t);
    assert Strip(seg) == u == seg[|t| - |u|..|t|];
    i, j := TrimSlice(seg, |t| - |u|, |t|);
  }

  /** A name read from a segment without `?` holds no `?`. */
  lemma NameWithoutQuestion(seg: string)
    requires '?' !in seg
    ensures ExtractAttribute(seg).Ok? && ExtractAttribute(seg).value.Name? ==> '?' !in ExtractAttribute(seg).value.s
  {
    var i, j := CoreSlice(seg);
    assert forall x :: x in seg[i..j] ==> x in seg;
  }

  /**
    A name read from a segment whose only `?` can be its last character holds
    a `?` only when the segment ends with one, and then the name ends with it.
  */
  lemma NameEndingInQuestion(seg: string)
    requires forall m :: 0 <= m < |seg| - 1 ==> seg[m] != '?'
    requires ExtractAttribute(seg).Ok? && ExtractAttribute(seg).value.Name?
    requires '?' in ExtractAttribute(seg).value.s
    ensures seg[|seg| - 1] == '?' && EndsWithQuestion(ExtractAttribute(seg).value.s)
  {
    var n := ExtractAttribute(seg).value.s;
    var i, j := CoreSlice(seg);
    var p :| 0 <= p < |n| && n[p] == '?';
    assert n[p] == seg[i + p];
    assert i + p == |seg| - 1;
  }

  /** Only the last step may hold a `?`, and only when the text ends with `?`, which the name keeps. */
  predicate QuestionOnlyLast(e: string, steps: seq<Step>) {
    forall k :: 0 <= k < |steps| && steps[k].attr.Name? && '?' in steps[k].attr.s ==>
      k == |steps| - 1 && |e| > 0 && e[|e| - 1] == '?' && EndsWithQuestion(steps[k].attr.s)
  }

  predicate NoQuestionNames(steps: seq<Step>) {
    forall k :: 0 <= k < |steps| && steps[k].attr.Name? ==> '?' !in steps[k].attr.s
  }

  lemma {:induction false} ScanQuestion(e: string, index: nat, start: nat, br: int, inBr: bool, acc: seq<Step>)
    requires start <= index <= |e|
    requires forall m :: start <= m < index ==> !IsBoundary(e[m])
    requires NoQuestionNames(acc)
    ensures var r := ScanFrom(ExtractAttribute, e, index, start, br, inBr, acc);
      r.Ok? ==> QuestionOnlyLast(e, r.value)
    decreases |e| - index, 2
  {
    if index < |e| {
      if IsBoundary(e[index]) || index == |e| - 1 {
        var end := if index == |e| - 1 then index + 1 else index;
        SegmentQuestion(e, index, start, end, br, inBr, acc);
      } else {
        ScanQuestion(e, index + 1, start, br, inBr, acc);
      }
    }
  }

  /** At the last character, whatever the separator, the scan adds nothing after the segment's own step. */
  lemma SegmentAtLast(extract: Extractor, e: string, br: int, inBr: bool, acc: seq<Step>, attr: Attr)
    requires |e| > 0
    ensures var r := ScanSegment(extract, e, |e| - 1, br, inBr, acc, Ok(attr));
      r.Ok? ==> r.value == if AttrTruthy(attr) then acc + [Step(OperationTypeOf(attr, inBr), attr)] else acc
  {
  }

  lemma {:induction false} SegmentQuestion(e: string, index: nat, start: nat, end: nat, br: int, inBr: bool,
                                           acc: seq<Step>)
    requires start <= index < |e| && end == (if index == |e| - 1 then index + 1 else index)
    requires forall m :: start <= m < index ==> !IsBoundary(e[m])
    requires NoQuestionNames(acc)
    ensures var r := ScanSegment(ExtractAttribute, e, index, br, inBr, acc, ExtractAttribute(e[start..end]));
      r.Ok? ==> QuestionOnlyLast(e, r.value)
    decreases |e| - index, 1
  {
    if index < |e| - 1 {
      var x := ExtractAttribute(e[start..index]);
      if x.Ok? {
        SegmentNoQuestion(e, index, start, inBr, acc, x.value);
        SegmentBeforeSeparator(e, index, br, inBr, acc, x.value);
      }
    } else {
      var x := ExtractAttribute(e[start..|e|]);
      if x.Ok? {
        SegmentLast(e, start, br, inBr, acc, x.value);
      }
    }
  }

  /** The segment that runs to the end of the text may keep a final `?`, and nothing follows it. */
  lemma SegmentLast(e: string, start: nat, br: int, inBr: bool, acc: seq<Step>, attr: Attr)
    requires start < |e|
    requires forall m :: start <= m < |e| - 1 ==> !IsBoundary(e[m])
    requires NoQuestionNames(acc)
    requires ExtractAttribute(e[start..|e|]) == Ok(attr)
    ensures var r := ScanSegment(ExtractAttribute, e, |e| - 1, br, inBr, acc, Ok(attr));
      r.Ok? ==> QuestionOnlyLast(e, r.value)
  {
    var seg := e[start..|e|];
    SegmentAtLast(ExtractAttribute, e, br, inBr, acc, attr);
    if attr.Name? && '?' in attr.s {
      assert forall m :: 0 <= m < |seg| - 1 ==> seg[m] == e[start + m];
      NameEndingInQuestion(seg);
    }
    if AttrTruthy(attr) {
      QuestionOnlyLastSnoc(e, acc, Step(OperationTypeOf(attr, inBr), attr));
    }
  }

  /** A step list without `?` names, extended by one step whose name may end the text's final `?`. */
  lemma QuestionOnlyLastSnoc(e: string, acc: seq<Step>, step: Step)
    requires NoQuestionNames(acc)
    requires step.attr.Name? && '?' in step.attr.s ==> |e| > 0 && e[|e| - 1] == '?' && EndsWithQuestion(step.attr.s)
    ensures QuestionOnlyLast(e, acc + [step])
  {
  }

  /** A segment that ends before a separator holds no `?`, so neither does the step it adds. */
  lemma SegmentNoQuestion(e: string, index: nat, start: nat, inBr: bool, acc: seq<Step>, attr: Attr)
    requires start <= index <= |e|
    requires forall m :: start <= m < index ==> !IsBoundary(e[m])
    requires NoQuestionNames(acc)
    requires ExtractAttribute(e[start..index]) == Ok(attr)
    ensures NoQuestionNames(if AttrTruthy(attr) then acc + [Step(OperationTypeOf(attr, inBr), attr)] else acc)
  {
    var seg := e[start..index];
    assert '?' !in seg by {
      assert forall m :: 0 <= m < |seg| ==> seg[m] == e[start + m];
    }
    NameWithoutQuestion(seg);
  }

  /** Past a separator that is not the last character, a segment's pass either raises or scans on from the next index. */
  lemma ScanSegmentNext(extract: Extractor, e: string, index: nat, br: int, inBr: bool, acc: seq<Step>, attr: Attr)
    requires index < |e| - 1
    ensures var r := ScanSegment(extract, e, index, br, inBr, acc, Ok(attr));
      var c := e[index];
      r.Ok? ==> r == ScanFrom(extract, e, index + 1, index + 1,
                              if c == '[' then br + 1 else if c == ']' then br - 1 else br,
                              if c == '[' then true else if c == ']' then false else inBr,
                              if AttrTruthy(attr) then acc + [Step(OperationTypeOf(attr, inBr), attr)] else acc)
  {
  }

  lemma {:induction false} SegmentBeforeSeparator(e: string, index: nat, br: int, inBr: bool,
                                                  acc: seq<Step>, attr: Attr)
    requires index < |e| - 1
    requires NoQuestionNames(if AttrTruthy(attr) then acc + [Step(OperationTypeOf(attr, inBr), attr)] else acc)
    ensures var r := ScanSegment(ExtractAttribute, e, index, br, inBr, acc, Ok(attr));
      r.Ok? ==> QuestionOnlyLast(e, r.value)
    decreases |e| - index, 0
  {
    var acc' := if AttrTruthy(attr) then acc + [Step(OperationTypeOf(attr, inBr), attr)] else acc;
    var c := e[index];
    var br', inBr' := if c == '[' then br + 1 else if c == ']' then br - 1 else br,
                      if c == '[' then true else if c == ']' then false else inBr;
    ScanSegmentNext(ExtractAttribute, e, index, br, inBr, acc, attr);
    ScanQuestion(e, index + 1, index + 1, br', inBr', acc');
  }

  /**
    A `?` survives in a step only as the last character of the whole text: at
    any other place it ends the segment and is dropped with the separator.
  */
  lemma ParseQuestionOnlyLast(e: string)
    ensures Parse(e).Ok? ==> QuestionOnlyLast(e, Parse(e).value)
  {
    ScanQuestion(e, 0, 0, 0, false, []);
  }

  // ---------------------------------------------------------------------------
  // The evaluator

  /** What `get` raises: `ValueDoesNotExist`, `ValueError` (not iterable), and Python's own errors. */
  datatype GetError =
    | ValueDoesNotExist(attr: string)
    | NotIterable
    | IndexError
    | TypeError        // indexing a list with a name, unpacking a non-slice
    | AttributeError   // `format_attribute` on an attribute that is not a str

  /** A parsed expression with its global default (`Empty` when none was given). */
  datatype Expression = Expression(text: string, default: Value, steps: seq<Step>)

  /** `Expression(expression, default)`: parses once, up front. */
  function NewExpression(text: string, default: Value): (r: Result<Expression, SyntaxError>)
    ensures r.Ok? <==> Parse(text).Ok?
    ensures r.Ok? ==> r.value.text == text && r.value.default == default && r.value.steps == Parse(text).value
  {
    match Parse(text)
    case Ok(steps) => Ok(Expression(text, default, steps))
    case Err(x) => Err(x)
  }

  /** `get_default`: a default given to the call wins over the expression's own. */
  function GetDefault(e: Expression, default: Value): Value {
    if default != Empty then default else e.default
  }

  predicate EndsWithQuestion(s: string) {
    |s| > 0 && s[|s| - 1] == '?'
  }

  /** `x or d` for a slice bound: None and 0 both give `d`. */
  function OrDefault(b: Option<int>, d: int): int {
    match b
    case Some(n) => if n != 0 then n else d
    case None => d
  }

  /** The elements an array step hands to the rest of the path. */
  function Select(st: Step, items: seq<Value>): (r: Result<seq<Value>, GetError>)
    requires st.op != Obj
    ensures st.op == Arr ==> r == Ok(items)
    ensures st.op == ArrSelect ==> (r.Ok? <==> st.attr.Index? && -|items| <= st.attr.i < |items|)
    ensures st.op == ArrSelect && r.Ok? ==>
              r.value == [items[if st.attr.i >= 0 then st.attr.i else |items| + st.attr.i]]
    ensures st.op == ArrSelect && r.Err? ==> r.error == if st.attr.Index? then IndexError else TypeError
    ensures st.op == ArrSelect && r.Ok? ==> st.attr.Index? && |r.value| == 1 && r.value[0] in items
    ensures st.op == ArrSlice ==> (r.Ok? <==> st.attr.Slice?) && (r.Err? ==> r.error == TypeError)
    ensures st.op == ArrSlice && r.Ok? ==>
              var n, step := |items|, OrDefault(st.attr.step, 1);
              var start, stop := OrDefault(st.attr.start, 0), OrDefault(st.attr.stop, n);
              if step > 0 then Strided(items, ClampUp(start, n), ClampUp(stop, n), step, r.value)
              else Strided(items, ClampDown(start, n), ClampDown(stop, n), step, r.value)
    ensures st.op == ArrSlice && r.Ok? ==> forall x :: x in r.value ==> x in items
  {
    if st.op == ArrSlice then
      if !st.attr.Slice? then Err(TypeError)
      else
        var step := OrDefault(st.attr.step, 1);
        var s := PySlice(items, OrDefault(st.attr.start, 0), OrDefault(st.attr.stop, |items|), step);
        SliceMembers(items, OrDefault(st.attr.start, 0), OrDefault(st.attr.stop, |items|), step);
        SliceStrided(items, OrDefault(st.attr.start, 0), OrDefault(st.attr.stop, |items|), step);
        Ok(s)
    else if st.op == ArrSelect then
      if !st.attr.Index? then Err(TypeError)
      else
        match PyIndex(items, st.attr.i)
        case Some(x) => Ok([x])
        case None => Err(IndexError)
    else Ok(items)
  }

  /**
    What `get(instance, default, i)` returns, with the default already resolved
    to `dflt`: walk the steps from `i` while the value is truthy; a missing key
    gives the default when the attribute ends in `?` or a default exists; an
    array step maps the rest of the path over the selected elements and stops.
  */
  function Run(steps: seq<Step>, v: Value, dflt: Value, i: nat): Result<Value, GetError>
    decreases |steps| - i, 1
  {
    if i >= |steps| || !Truthy(v) then Ok(v)
    else
      var st := steps[i];
      if st.op == Obj then
        if !st.attr.Name? then Err(AttributeError)
        else match GetAttribute(v, FormatAttribute(st.attr.s))
          case Found(x) => Run(steps, x, dflt, i + 1)
          case NotFound =>
            if EndsWithQuestion(st.attr.s) || dflt != Empty then Ok(dflt)
            else Err(ValueDoesNotExist(st.attr.s))
      else if !v.List? then Err(NotIterable)
      else match Select(st, v.items)
        case Err(x) => Err(x)
        case Ok(xs) =>
          match RunEach(steps, xs, dflt, i)
          case Err(x) => Err(x)
          case Ok(ys) =>
            if st.op == ArrSelect then
              match PyIndex(ys, st.attr.i)
              case Some(y) => Ok(y)
              case None => Err(IndexError)
            else Ok(List(ys))
  }

  /** `[get(each, default, i + 1) for each in xs]`: the first failure propagates. */
  function RunEach(steps: seq<Step>, xs: seq<Value>, dflt: Value, i: nat): Result<seq<Value>, GetError>
    requires i < |steps|
    decreases |steps| - i, 0, |xs|
  {
    if xs == [] then Ok([])
    else match Run(steps, xs[0], dflt, i + 1)
      case Err(x) => Err(x)
      case Ok(y) =>
        match RunEach(steps, xs[1..], dflt, i)
        case Err(x) => Err(x)
        case Ok(ys) => Ok([y] + ys)
  }

  /** `ys` followed by the outcome `r`. */
  function Prefixed(ys: seq<Value>, r: Result<seq<Value>, GetError>): Result<seq<Value>, GetError> {
    match r
    case Ok(zs) => Ok(ys + zs)
    case Err(x) => Err(x)
  }

  /** `Expression.get(instance, default, index)`. */
  method Get(e: Expression, instance: Value, default: Value, index: nat) returns (r: Result<Value, GetError>)
    ensures r == Run(e.steps, instance, GetDefault(e, default), index)
    decreases |e.steps| - index, 1
  {
    var steps := e.steps;
    var defaultValue := GetDefault(e, default);
    var v := instance;
    var i := index;
    while i < |steps| && Truthy(v)
      invariant index <= i
      invariant Run(steps, v, defaultValue, i) == Run(steps, instance, defaultValue, index)
      decreases |steps| - i
    {
      var st := steps[i];
      if st.op == Obj {
        if !st.attr.Name? {
          return Err(AttributeError);
        }
        var found := GetAttribute(v, FormatAttribute(st.attr.s));
        if found.NotFound? {
          if EndsWithQuestion(st.attr.s) || defaultValue != Empty {
            return Ok(defaultValue);
          }
          return Err(ValueDoesNotExist(st.attr.s));
        }
        v := found.value;
        i := i + 1;
      } else {
        if !v.List? {
          return Err(NotIterable);
        }
        var selected := Select(st, v.items);
        if selected.Err? {
          return Err(selected.error);
        }
        var each := GetEach(e, selected.value, default, i);
        if each.Err? {
          return Err(each.error);
        }
        var ys := each.value;
        if st.op == ArrSelect {
          var picked := PyIndex(ys, st.attr.i);
          if picked.None? {
            return Err(IndexError);
          }
          return Ok(picked.value);
        }
        return Ok(List(ys));
      }
    }
    return Ok(v);
  }

  /** The comprehension in `Expression.get`: the rest of the path from `i + 1`, applied to each element. */
  method GetEach(e: Expression, xs: seq<Value>, default: Value, i: nat) returns (r: Result<seq<Value>, GetError>)
    requires i < |e.steps|
    ensures r == RunEach(e.steps, xs, GetDefault(e, default), i)
    decreases |e.steps| - i, 0
  {
    var steps := e.steps;
    var defaultValue := GetDefault(e, default);
    var ys: seq<Value> := [];
    var k := 0;
    assert xs[0..] == xs;
    assert Prefixed([], RunEach(steps, xs, defaultValue, i)) == RunEach(steps, xs, defaultValue, i) by {
      var rr := RunEach(steps, xs, defaultValue, i);
      if rr.Ok? { assert [] + rr.value == rr.value; }
    }
    while k < |xs|
      invariant 0 <= k <= |xs|
      invariant RunEach(steps, xs, defaultValue, i) == Prefixed(ys, RunEach(steps, xs[k..], defaultValue, i))
    {
      var y := Get(e, xs[k], default, i + 1);
      assert xs[k..][1..] == xs[k + 1..];
      if y.Err? {
        return Err(y.error);
      }
      var later := RunEach(steps, xs[k + 1..], defaultValue, i);
      assert RunEach(steps, xs[k..], defaultValue, i) == Prefixed([y.value], later);
      if later.Ok? { assert ys + ([y.value] + later.value) == (ys + [y.value]) + later.value; }
      ys := ys + [y.value];
      k := k + 1;
    }
    assert xs[k..] == [];
    assert ys + [] == ys;
    return Ok(ys);
  }

  /** `Expression.get_attribute`: a missing attribute gives the default when it is optional (`?`) or a default exists. */
  function ExprGetAttribute(e: Expression, instance: Value, attr: string, default: Value): (r: Result<Value, GetError>)
    ensures EndsWithQuestion(attr) ==> r.Ok?
    ensures r.Err? <==> !EndsWithQuestion(attr) && GetDefault(e, default) == Empty
                        && GetAttribute(instance, FormatAttribute(attr)).NotFound?
    ensures r.Err? ==> r.error == ValueDoesNotExist(attr)
    ensures r.Ok? && r.value != GetDefault(e, default) ==>
              instance.Dict? && (Str(FormatAttribute(attr)), r.value) in instance.entries
  {
    var optional := EndsWithQuestion(attr) || GetDefault(e, default) != Empty;
    match GetAttribute(instance, FormatAttribute(attr))
    case Found(x) => Ok(x)
    case NotFound => if optional then Ok(GetDefault(e, default)) else Err(ValueDoesNotExist(attr))
  }

  /**
    `get` handles an OBJ step as `get_attribute` does: the same error, the
    default on an optional miss, and otherwise the walk goes on from the value found.
  */
  lemma GetObjStepIsGetAttribute(e: Expression, instance: Value, attr: string, default: Value, index: nat)
    requires index < |e.steps| && e.steps[index] == Step(Obj, Name(attr)) && Truthy(instance)
    ensures var r := ExprGetAttribute(e, instance, attr, default);
      var run := Run(e.steps, instance, GetDefault(e, default), index);
      && (r.Err? ==> run == r)
      && (GetAttribute(instance, FormatAttribute(attr)).NotFound? ==> run == r)
      && (GetAttribute(instance, FormatAttribute(attr)).Found? ==>
            r.Ok? && run == Run(e.steps, r.value, GetDefault(e, default), index + 1))
  {
  }

  /** `name?` looks up `name`: the `?` is removed before the lookup. */
  lemma OptionalLooksUpBareName(e: Expression, n: string, v: Value, default: Value)
    requires IsAlpha(n)
    ensures ExprGetAttribute(e, Dict([(Str(n), v)]), n + "?", default) == Ok(v)
  {
    assert FormatAttribute(n + "?") == n by {
      assert forall k :: 0 <= k < |n| ==> n[k] != '?' && n[k] != '^';
      RemoveCharAbsent(n, '?');
      RemoveCharAppend(n, '?');
      RemoveCharAbsent(n, '^');
    }
  }

  /** `Expression.handle_obj_attr`: look the attribute up, then walk the rest of the path from `index + 1`. */
  function HandleObjAttr(e: Expression, instance: Value, attr: string, default: Value, index: nat): Result<Value, GetError> {
    match ExprGetAttribute(e, instance, attr, default)
    case Err(x) => Err(x)
    case Ok(v) => Run(e.steps, v, GetDefault(e, default), index + 1)
  }

  /**
    `handle_obj_attr` agrees with `get` on an OBJ step whose attribute is found;
    on an optional miss it goes on walking the path from the default, where
    `get` returns the default at once.
  */
  lemma HandleObjAttrAgainstGet(e: Expression, instance: Value, attr: string, default: Value, index: nat)
    requires index < |e.steps| && e.steps[index] == Step(Obj, Name(attr)) && Truthy(instance)
    ensures GetAttribute(instance, FormatAttribute(attr)).Found? ==>
              HandleObjAttr(e, instance, attr, default, index) == Run(e.steps, instance, GetDefault(e, default), index)
    ensures GetAttribute(instance, FormatAttribute(attr)).NotFound? && GetDefault(e, default) != Empty ==>
              && Run(e.steps, instance, GetDefault(e, default), index) == Ok(GetDefault(e, default))
              && HandleObjAttr(e, instance, attr, default, index)
                 == Run(e.steps, GetDefault(e, default), GetDefault(e, default), index + 1)
  {
  }

  /** One element's result as `handle_array_attr` collects it: a list is spliced in, anything else appended. */
  function Pieces(v: Value): seq<Value> {
    if v.List? then v.items else [v]
  }

  /** The `ret` list `handle_array_attr` builds from the per-element results. */
  function Flatten(vs: seq<Value>): seq<Value>
    decreases |vs|
  {
    if vs == [] then [] else Flatten(vs[..|vs| - 1]) + Pieces(vs[|vs| - 1])
  }

  /** Results that are not lists are collected as they are. */
  lemma {:induction false} FlattenNoLists(vs: seq<Value>)
    requires forall k :: 0 <= k < |vs| ==> !vs[k].List?
    ensures Flatten(vs) == vs
    decreases |vs|
  {
    if vs != [] {
      FlattenNoLists(vs[..|vs| - 1]);
      assert vs[..|vs| - 1] + [vs[|vs| - 1]] == vs;
    }
  }

  /** The rest of the path from `i + 1` applied to each element; past the end each element is its own result. */
  function RunAll(steps: seq<Step>, xs: seq<Value>, dflt: Value, i: nat): Result<seq<Value>, GetError> {
    if i < |steps| then RunEach(steps, xs, dflt, i) else Ok(xs)
  }

  /** What `Expression.handle_array_attr` returns. */
  function ArrayAttr(e: Expression, instance: Value, attr: Attr, op: OperationType, default: Value, index: nat)
    : Result<Value, GetError>
  {
    if !instance.List? then Err(NotIterable)
    else
      var xs := instance.items;
      var items := if attr.Slice? then
                     PySlice(xs, OrDefault(attr.start, 0), OrDefault(attr.stop, |xs|), OrDefault(attr.step, 1))
                   else xs;
      match RunAll(e.steps, items, GetDefault(e, default), index)
      case Err(x) => Err(x)
      case Ok(vals) =>
        var ret := Flatten(vals);
        if op == ArrSelect then
          if !attr.Index? then Err(TypeError)
          else match PyIndex(ret, attr.i)
            case Some(y) => Ok(y)
            case None => Err(IndexError)
        else Ok(List(ret))
  }

  /** Past the end of the path `get` returns its argument unchanged. */
  lemma RunAllStep(steps: seq<Step>, xs: seq<Value>, dflt: Value, i: nat, k: nat, y: Value)
    requires k < |xs| && Run(steps, xs[k], dflt, i + 1) == Ok(y)
    ensures RunAll(steps, xs[k..], dflt, i) == Prefixed([y], RunAll(steps, xs[k + 1..], dflt, i))
  {
    assert xs[k..][1..] == xs[k + 1..];
    if i >= |steps| { assert xs[k..] == [xs[k]] + xs[k + 1..]; }
  }

  lemma PrefixedExtend(ys: seq<Value>, y: Value, r: Result<seq<Value>, GetError>)
    ensures Prefixed(ys, Prefixed([y], r)) == Prefixed(ys + [y], r)
  {
    if r.Ok? { assert ys + ([y] + r.value) == (ys + [y]) + r.value; }
  }

  /** The loop of `handle_array_attr`: each element's result, lists spliced in, the first failure propagated. */
  method CollectResults(e: Expression, items: seq<Value>, default: Value, index: nat)
    returns (r: Result<seq<Value>, GetError>)
    ensures r == match RunAll(e.steps, items, GetDefault(e, default), index)
                 case Ok(vals) => Ok(Flatten(vals))
                 case Err(x) => Err(x)
  {
    var ret: seq<Value> := [];
    var defaultValue := GetDefault(e, default);
    ghost var vals: seq<Value> := [];
    var k := 0;
    assert items[0..] == items;
    assert Prefixed([], RunAll(e.steps, items, defaultValue, index)) == RunAll(e.steps, items, defaultValue, index) by {
      var rr := RunAll(e.steps, items, defaultValue, index);
      if rr.Ok? { assert [] + rr.value == rr.value; }
    }
    while k < |items|
      invariant 0 <= k <= |items|
      invariant RunAll(e.steps, items, defaultValue, index) == Prefixed(vals, RunAll(e.steps, items[k..], defaultValue, index))
      invariant ret == Flatten(vals)
    {
      var val := Get(e, items[k], default, index + 1);
      if val.Err? {
        assert items[k..][1..] == items[k + 1..];
        assert index < |e.steps|;
        return Err(val.error);
      }
      RunAllStep(e.steps, items, defaultValue, index, k, val.value);
      PrefixedExtend(vals, val.value, RunAll(e.steps, items[k + 1..], defaultValue, index));
      assert (vals + [val.value])[..|vals|] == vals;
      if !val.value.List? {
        ret := ret + [val.value];
      } else {
        ret := ret + val.value.items;
      }
      vals := vals + [val.value];
      k := k + 1;
    }
    assert items[k..] == [];
    assert RunAll(e.steps, items, defaultValue, index) == Ok(vals) by {
      assert vals + [] == vals;
    }
    return Ok(ret);
  }

  /** `Expression.handle_array_attr`. */
  method HandleArrayAttr(e: Expression, instance: Value, attr: Attr, op: OperationType, default: Value, index: nat)
    returns (r: Result<Value, GetError>)
    ensures r == ArrayAttr(e, instance, attr, op, default, index)
  {
    if !instance.List? {
      return Err(NotIterable);
    }
    var xs := instance.items;
    var items := xs;
    if attr.Slice? {
      items := PySlice(xs, OrDefault(attr.start, 0), OrDefault(attr.stop, |xs|), OrDefault(attr.step, 1));
    }
    var collected := CollectResults(e, items, default, index);
    if collected.Err? {
      return Err(collected.error);
    }
    var ret := collected.value;
    if op == ArrSelect {
      if !attr.Index? {
        return Err(TypeError);
      }
      var picked := PyIndex(ret, attr.i);
      if picked.None? {
        return Err(IndexError);
      }
      return Ok(picked.value);
    }
    return Ok(List(ret));
  }

  // ---------------------------------------------------------------------------
  // What the evaluator guarantees

  /** `{names[0]: {names[1]: ... leaf}}`: one single-key dict per name. */
  function Nest(names: seq<string>, leaf: Value): Value
    decreases |names|
  {
    if names == [] then leaf else Dict([(Str(names[0]), Nest(names[1..], leaf))])
  }

  lemma {:induction false} RunObjChain(names: seq<string>, k: nat, leaf: Value, dflt: Value)
    requires k <= |names| && forall j :: 0 <= j < |names| ==> IsAlpha(names[j])
    ensures Run(ObjSteps(names), Nest(names[k..], leaf), dflt, k) == Ok(leaf)
    decreases |names| - k
  {
    if k < |names| {
      var n := names[k];
      var inner := Nest(names[k + 1..], leaf);
      assert names[k..][1..] == names[k + 1..];
      assert Nest(names[k..], leaf) == Dict([(Str(n), inner)]);
      RunObjStep(ObjSteps(names), k, n, inner, dflt);
      RunObjChain(names, k + 1, leaf, dflt);
    }
  }

  /** An OBJ step on a one-key dict holding its name moves on to the value under that key. */
  lemma RunObjStep(steps: seq<Step>, k: nat, n: string, inner: Value, dflt: Value)
    requires k < |steps| && steps[k] == Step(Obj, Name(n)) && IsAlpha(n)
    ensures Run(steps, Dict([(Str(n), inner)]), dflt, k) == Run(steps, inner, dflt, k + 1)
  {
    assert forall j :: 0 <= j < |n| ==> n[j] != '?' && n[j] != '^';
    FormatAttributeKeeps(n);
    assert GetAttribute(Dict([(Str(n), inner)]), n) == Found(inner);
  }

  /**
    A dotted path of names reads back the leaf of the nested dicts it names:
    it parses to one OBJ step per name, and walking those steps reaches the leaf.
  */
  lemma DottedPathRoundTrip(names: seq<string>, leaf: Value, dflt: Value)
    requires |names| >= 1 && forall j :: 0 <= j < |names| ==> IsAlpha(names[j])
    ensures Parse(Join(names, '.')) == Ok(ObjSteps(names))
    ensures Run(ObjSteps(names), Nest(names, leaf), dflt, 0) == Ok(leaf)
  {
    ParseDottedNames(names);
    assert names[0..] == names;
    RunObjChain(names, 0, leaf, dflt);
  }

  /** Walking stops, returning the value, once the path is used up or the value is falsy. */
  lemma RunStops(steps: seq<Step>, v: Value, dflt: Value, i: nat)
    requires i >= |steps| || !Truthy(v)
    ensures Run(steps, v, dflt, i) == Ok(v)
  {
  }

  /** An OBJ step whose key is missing gives the default when optional or defaulted, else `ValueDoesNotExist`. */
  lemma RunMissingKey(steps: seq<Step>, v: Value, dflt: Value, i: nat, attr: string)
    requires i < |steps| && steps[i] == Step(Obj, Name(attr)) && Truthy(v)
    requires GetAttribute(v, FormatAttribute(attr)).NotFound?
    ensures EndsWithQuestion(attr) || dflt != Empty ==> Run(steps, v, dflt, i) == Ok(dflt)
    ensures !EndsWithQuestion(attr) && dflt == Empty ==> Run(steps, v, dflt, i) == Err(ValueDoesNotExist(attr))
  {
  }

  /** An array step on a truthy value that is not a list raises the not-iterable error. */
  lemma RunNotIterable(steps: seq<Step>, v: Value, dflt: Value, i: nat)
    requires i < |steps| && steps[i].op != Obj && Truthy(v) && !v.List?
    ensures Run(steps, v, dflt, i) == Err(NotIterable)
  {
  }

  /**
    The comprehension succeeds exactly when every element does, with one
    result per element in order; otherwise it fails with the first failure.
  */
  lemma {:induction false} RunEachPointwise(steps: seq<Step>, xs: seq<Value>, dflt: Value, i: nat)
    requires i < |steps|
    ensures var r := RunEach(steps, xs, dflt, i);
      && (r.Ok? <==> forall k :: 0 <= k < |xs| ==> Run(steps, xs[k], dflt, i + 1).Ok?)
      && (r.Ok? ==> |r.value| == |xs| && forall k :: 0 <= k < |xs| ==> r.value[k] == Run(steps, xs[k], dflt, i + 1).value)
      && (r.Err? ==> exists k :: 0 <= k < |xs| && Run(steps, xs[k], dflt, i + 1) == Err(r.error)
                                && forall j :: 0 <= j < k ==> Run(steps, xs[j], dflt, i + 1).Ok?)
    decreases |xs|
  {
    if xs != [] {
      RunEachPointwise(steps, xs[1..], dflt, i);
      var r := RunEach(steps, xs, dflt, i);
      var rest := RunEach(steps, xs[1..], dflt, i);
      assert forall k :: 1 <= k < |xs| ==> xs[k] == xs[1..][k - 1];
      if Run(steps, xs[0], dflt, i + 1).Ok? && rest.Err? {
        var k :| 0 <= k < |xs[1..]| && Run(steps, xs[1..][k], dflt, i + 1) == Err(rest.error)
                 && forall j :: 0 <= j < k ==> Run(steps, xs[1..][j], dflt, i + 1).Ok?;
        assert Run(steps, xs[k + 1], dflt, i + 1) == Err(r.error);
        assert forall j :: 0 <= j < k + 1 ==> Run(steps, xs[j], dflt, i + 1).Ok? by {
          forall j | 0 <= j < k + 1 ensures Run(steps, xs[j], dflt, i + 1).Ok? {
            if j > 0 { assert xs[j] == xs[1..][j - 1]; }
          }
        }
      }
    }
  }

  /**
    An ARR_SELECT step with a positive index never yields a value: the
    selected element is wrapped in a one-element list, which is then indexed
    again with the same index.
  */
  lemma ArrSelectNeverSucceeds(steps: seq<Step>, v: Value, dflt: Value, i: nat, n: int)
    requires i < |steps| && steps[i] == Step(ArrSelect, Index(n)) && n >= 1 && Truthy(v)
    ensures Run(steps, v, dflt, i).Err?
  {
    if v.List? {
      var sel := Select(steps[i], v.items);
      if sel.Ok? {
        RunEachPointwise(steps, sel.value, dflt, i);
      }
    }
  }

  /** Every ARR_SELECT step the parser records fails once it is reached with a truthy value. */
  lemma ParsedArrSelectFails(steps: seq<Step>, v: Value, dflt: Value, i: nat)
    requires i < |steps| && StepWellFormed(steps[i]) && steps[i].op == ArrSelect && Truthy(v)
    ensures Run(steps, v, dflt, i).Err?
  {
    if steps[i].attr.Index? {
      ArrSelectNeverSucceeds(steps, v, dflt, i, steps[i].attr.i);
    }
  }

  /** A bound that `x or d` reads as its default. */
  predicate DefaultBound(b: Option<int>) {
    b == None || b == Some(0)
  }

  /** `[*]`, and a slice whose start, end and step are all defaulted, walk the whole list. */
  lemma ArrWalksWholeList(steps: seq<Step>, xs: seq<Value>, dflt: Value, i: nat)
    requires i < |steps| && xs != []
    requires steps[i].op == Arr || (steps[i].op == ArrSlice && steps[i].attr.Slice?
               && DefaultBound(steps[i].attr.start) && DefaultBound(steps[i].attr.stop)
               && (DefaultBound(steps[i].attr.step) || steps[i].attr.step == Some(1)))
    ensures Run(steps, List(xs), dflt, i) == match RunEach(steps, xs, dflt, i)
                                            case Ok(ys) => Ok(List(ys))
                                            case Err(x) => Err(x)
  {
    if steps[i].op == ArrSlice {
      SliceContiguous(xs, 0, |xs|);
      assert xs[0..|xs|] == xs;
    }
  }

  /** A slice `[s:t]` with in-range bounds walks exactly the elements `s` to `t - 1`. */
  lemma SliceWalksRange(steps: seq<Step>, xs: seq<Value>, dflt: Value, i: nat, s: nat, t: nat)
    requires i < |steps| && xs != [] && 0 < t <= |xs| && s <= t
    requires steps[i] == Step(ArrSlice, Slice(Some(s), Some(t), Some(1)))
    ensures Run(steps, List(xs), dflt, i) == match RunEach(steps, xs[s..t], dflt, i)
                                            case Ok(ys) => Ok(List(ys))
                                            case Err(x) => Err(x)
  {
    SliceContiguous(xs, s, t);
  }

  /**
    `[s:]`, `[s:0]` and `[s:t]` with `t` at or past the end select the rest of
    the list from an in-range start: a zero end is replaced by the length
    before slicing, and an end past the length is cut back to it.
  */
  lemma SliceToEnd(xs: seq<Value>, s: nat, stop: Option<int>, step: Option<int>)
    requires s <= |xs| && (DefaultBound(stop) || (stop.Some? && stop.value >= |xs|))
    requires DefaultBound(step) || step == Some(1)
    ensures Select(Step(ArrSlice, Slice(Some(s), stop, step)), xs) == Ok(xs[s..])
  {
    var t := OrDefault(stop, |xs|);
    assert ClampUp(t, |xs|) == |xs| && ClampUp(s, |xs|) == s && OrDefault(step, 1) == 1;
    assert PySlice(xs, OrDefault(Some(s), 0), t, 1) == PySlice(xs, s, |xs|, 1);
    SliceContiguous(xs, s, |xs|);
    assert xs[s..|xs|] == xs[s..];
  }

  /** `[-n:]`: a negative start counts from the end, so the last `n` elements. */
  lemma SliceNegativeStart(xs: seq<Value>, n: nat)
    requires 0 < n <= |xs|
    ensures Select(Step(ArrSlice, Slice(Some(-(n as int)), None, None)), xs) == Ok(xs[|xs| - n..])
  {
    assert ClampUp(-(n as int), |xs|) == |xs| - n && ClampUp(|xs|, |xs|) == |xs|;
    assert PySlice(xs, -(n as int), |xs|, 1) == PySlice(xs, |xs| - n, |xs|, 1);
    SliceContiguous(xs, |xs| - n, |xs|);
    assert xs[|xs| - n..|xs|] == xs[|xs| - n..];
  }

  /**
    `[::-1]` selects nothing: start and end default to 0 and the length
    before the negative step is looked at, so the slice runs from 0 down to
    the last position and is empty, where Python's own `xs[::-1]` reverses.
  */
  lemma ReversedSliceIsEmpty(xs: seq<Value>)
    ensures Select(Step(ArrSlice, Slice(None, None, Some(-1))), xs) == Ok([])
  {
  }

  /** The rest of the path from `i + 1` succeeds on `x` with a value that is not a list. */
  predicate ScalarResult(steps: seq<Step>, x: Value, dflt: Value, i: nat) {
    var y := Run(steps, x, dflt, i + 1);
    y.Ok? && !y.value.List?
  }

  lemma RunEachScalars(steps: seq<Step>, xs: seq<Value>, dflt: Value, i: nat)
    requires i < |steps|
    requires forall x :: x in xs ==> ScalarResult(steps, x, dflt, i)
    ensures RunEach(steps, xs, dflt, i).Ok?
    ensures Flatten(RunEach(steps, xs, dflt, i).value) == RunEach(steps, xs, dflt, i).value
  {
    RunEachPointwise(steps, xs, dflt, i);
    var r := RunEach(steps, xs, dflt, i);
    assert forall k :: 0 <= k < |xs| ==> ScalarResult(steps, xs[k], dflt, i);
    FlattenNoLists(r.value);
  }

  /** Where every element yields a non-list, `handle_array_attr` agrees with `get` on `[*]` and slice steps. */
  lemma ArrayAttrAgreesWithGet(e: Expression, xs: seq<Value>, default: Value, index: nat)
    requires index < |e.steps| && StepWellFormed(e.steps[index]) && xs != []
    requires e.steps[index].op == Arr || e.steps[index].op == ArrSlice
    requires forall x :: x in xs ==> ScalarResult(e.steps, x, GetDefault(e, default), index)
    ensures ArrayAttr(e, List(xs), e.steps[index].attr, e.steps[index].op, default, index)
            == Run(e.steps, List(xs), GetDefault(e, default), index)
  {
    var st := e.steps[index];
    var d := GetDefault(e, default);
    if st.op == ArrSlice {
      var start, stop, step := OrDefault(st.attr.start, 0), OrDefault(st.attr.stop, |xs|), OrDefault(st.attr.step, 1);
      SliceMembers(xs, start, stop, step);
      RunEachScalars(e.steps, PySlice(xs, start, stop, step), d, index);
    } else {
      RunEachScalars(e.steps, xs, d, index);
    }
  }

  /**
    Where `get` always fails on ARR_SELECT, `handle_array_attr` picks the
    result of the indexed element, provided no element's result is a list.
  */
  lemma ArrayAttrSelects(e: Expression, xs: seq<Value>, default: Value, index: nat, n: nat)
    requires index < |e.steps| && n < |xs|
    requires forall x :: x in xs ==> ScalarResult(e.steps, x, GetDefault(e, default), index)
    ensures ArrayAttr(e, List(xs), Index(n), ArrSelect, default, index)
            == Run(e.steps, xs[n], GetDefault(e, default), index + 1)
  {
    var d := GetDefault(e, default);
    var r := RunEach(e.steps, xs, d, index);
    RunEachScalars(e.steps, xs, d, index);
    RunEachPointwise(e.steps, xs, d, index);
    assert RunAll(e.steps, xs, d, index) == r && Flatten(r.value) == r.value;
    assert xs[n] in xs;
    assert r.value[n] == Run(e.steps, xs[n], d, index + 1).value;
    assert PyIndex(r.value, n) == Some(r.value[n]);
  }

  // ---------------------------------------------------------------------------
  // Worked paths

  lemma ExtractEmpty()
    ensures ExtractAttribute("") == Ok(Name(""))
  {
    StripUnchanged("");
  }

  lemma ExtractDigit(c: char)
    requires IsDigit(c)
    ensures ExtractAttribute([c]) == Ok(Index(DigitValue(c)))
  {
    StripUnchanged([c]);
    assert Core([c]) == [c];
    assert !IsLetter(c);
    assert DigitsValue([c]) == DigitValue(c) by { assert [c][..0] == []; }
  }

  /** The scan of `a[0].b` for any extractor that reads its four segments as the library does. */
  lemma ScanIndexZero(extract: Extractor)
    requires extract("a") == Ok(Name("a")) && extract("b") == Ok(Name("b"))
    requires extract("0") == Ok(Index(0)) && extract("") == Ok(Name(""))
    ensures ScanFrom(extract, "a[0].b", 0, 0, 0, false, []) == Ok([Step(Obj, Name("a")), Step(Obj, Name("b"))])
  {
    var e := "a[0].b";
    var a, b := Step(Obj, Name("a")), Step(Obj, Name("b"));
    assert e[0..1] == "a" && e[2..3] == "0" && e[4..4] == "" && e[5..6] == "b";
    assert e[1] == '[' && e[3] == ']' && e[4] == '.' && e[5] == 'b';
    assert AttrTruthy(Name("a")) && AttrTruthy(Name("b")) && [] + [a] == [a] && [a] + [b] == [a, b];
    assert ScanFrom(extract, e, 0, 0, 0, false, []) == ScanFrom(extract, e, 1, 0, 0, false, []);
    assert ScanFrom(extract, e, 1, 0, 0, false, [])
        == ScanSegment(extract, e, 1, 0, false, [], Ok(Name("a")));
    assert ScanSegment(extract, e, 1, 0, false, [], Ok(Name("a"))) == ScanFrom(extract, e, 2, 2, 1, true, [a]);
    assert ScanFrom(extract, e, 2, 2, 1, true, [a]) == ScanFrom(extract, e, 4, 4, 0, false, [a]);
    assert ScanFrom(extract, e, 4, 4, 0, false, [a]) == ScanFrom(extract, e, 5, 5, 0, false, [a]);
    assert ScanFrom(extract, e, 5, 5, 0, false, [a])
        == ScanSegment(extract, e, 5, 0, false, [a], Ok(Name("b")));
    assert ScanSegment(extract, e, 5, 0, false, [a], Ok(Name("b"))) == ScanFrom(extract, e, 6, 6, 0, false, [a, b]);
  }

  /** Index 0 is falsy, so `a[0].b` loses its index step. */
  lemma ParseDropsIndexZero()
    ensures Parse("a[0].b") == Ok([Step(Obj, Name("a")), Step(Obj, Name("b"))])
  {
    ExtractName("a"); ExtractName("b"); ExtractDigit('0'); ExtractEmpty();
    assert ['0'] == "0";
    ScanIndexZero(ExtractAttribute);
  }

  /** A name with a trailing `?` is extracted as it stands, `?` included. */
  lemma ExtractOptionalName(n: string)
    requires IsAlpha(n)
    ensures ExtractAttribute(n + "?") == Ok(Name(n + "?"))
  {
    var t := n + "?";
    assert IsLetter(t[0]) && t[|t| - 1] == '?';
    CoreUnchanged(t);
    assert !IsLetter('?') && !IsDigit('?');
    assert !IsAlpha(t) && !IsDigits(t) && t != "*";
    assert ':' !in t by {
      assert forall k :: 0 <= k < |n| ==> t[k] == n[k] && IsLetter(n[k]);
    }
  }

  /** The scan of `a.b?.c` for any extractor that reads the three letters as names and `""` as the empty name. */
  lemma ScanInnerQuestion(x: Extractor)
    requires x("a") == Ok(Name("a")) && x("b") == Ok(Name("b")) && x("c") == Ok(Name("c")) && x("") == Ok(Name(""))
    ensures ScanFrom(x, "a.b?.c", 0, 0, 0, false, [])
         == Ok([Step(Obj, Name("a")), Step(Obj, Name("b")), Step(Obj, Name("c"))])
  {
    var e := "a.b?.c";
    var a, b, c := Step(Obj, Name("a")), Step(Obj, Name("b")), Step(Obj, Name("c"));
    assert e[0..1] == "a" && e[2..3] == "b" && e[4..4] == "" && e[5..6] == "c";
    assert e[1] == '.' && e[2] == 'b' && e[3] == '?' && e[4] == '.' && e[5] == 'c';
    assert [] + [a] == [a] && [a] + [b] == [a, b] && [a, b] + [c] == [a, b, c];
    assert ScanFrom(x, e, 0, 0, 0, false, []) == ScanFrom(x, e, 1, 0, 0, false, []);
    assert ScanFrom(x, e, 1, 0, 0, false, []) == ScanSegment(x, e, 1, 0, false, [], Ok(Name("a")));
    assert ScanSegment(x, e, 1, 0, false, [], Ok(Name("a"))) == ScanFrom(x, e, 2, 2, 0, false, [a]);
    assert ScanFrom(x, e, 2, 2, 0, false, [a]) == ScanFrom(x, e, 3, 2, 0, false, [a]);
    assert ScanFrom(x, e, 3, 2, 0, false, [a]) == ScanSegment(x, e, 3, 0, false, [a], Ok(Name("b")));
    assert ScanSegment(x, e, 3, 0, false, [a], Ok(Name("b"))) == ScanFrom(x, e, 4, 4, 0, false, [a, b]);
    assert ScanFrom(x, e, 4, 4, 0, false, [a, b]) == ScanSegment(x, e, 4, 0, false, [a, b], Ok(Name("")));
    assert ScanSegment(x, e, 4, 0, false, [a, b], Ok(Name(""))) == ScanFrom(x, e, 5, 5, 0, false, [a, b]);
    assert ScanFrom(x, e, 5, 5, 0, false, [a, b]) == ScanSegment(x, e, 5, 0, false, [a, b], Ok(Name("c")));
  }

  /** In `a.b?.c` the `?` ends the segment `b` and is dropped: three plain OBJ steps. */
  lemma ParseDropsInnerQuestion()
    ensures Parse("a.b?.c") == Ok([Step(Obj, Name("a")), Step(Obj, Name("b")), Step(Obj, Name("c"))])
  {
    ExtractName("a"); ExtractName("b"); ExtractName("c"); ExtractEmpty();
    ScanInnerQuestion(ExtractAttribute);
  }

  /** A name with a trailing `?` that runs to the end of the text becomes the last OBJ step, `?` included. */
  lemma ScanFinalOptional(extract: Extractor, e: string, start: nat, n: string, acc: seq<Step>)
    requires IsAlpha(n) && start < |e| && e[start..] == n + "?"
    requires extract(n + "?") == Ok(Name(n + "?"))
    ensures ScanFrom(extract, e, start, start, 0, false, acc) == Ok(acc + [Step(Obj, Name(n + "?"))])
  {
    var last := |e| - 1;
    assert forall k :: start <= k < last ==> IsLetter(e[k]) by {
      forall k | start <= k < last ensures IsLetter(e[k]) { assert e[k] == n[k - start]; }
    }
    ScanLetters(extract, e, start, last, start, 0, false, acc);
    assert e[start..last + 1] == n + "?" && e[last] == '?';
    assert ScanFrom(extract, e, last, start, 0, false, acc)
        == ScanSegment(extract, e, last, 0, false, acc, Ok(Name(n + "?")));
    assert ScanSegment(extract, e, last, 0, false, acc, Ok(Name(n + "?")))
        == ScanFrom(extract, e, |e|, |e|, 0, false, acc + [Step(Obj, Name(n + "?"))]);
  }

  /**
    In `person.name?` the `?` is the last character, so it stays in the last
    name: `person`, then `name?`, for any two names.
  */
  lemma ParseKeepsFinalQuestion(p: string, n: string)
    requires IsAlpha(p) && IsAlpha(n)
    ensures Parse(p + "." + n + "?") == Ok([Step(Obj, Name(p)), Step(Obj, Name(n + "?"))])
  {
    ExtractAttributeReadsNames();
    ExtractOptionalName(n);
    ScanKeepsFinalQuestion(ExtractAttribute, p, n);
  }

  /** The scan of `p.n?` for any extractor that reads names as themselves and keeps the final `?`. */
  lemma ScanKeepsFinalQuestion(extract: Extractor, p: string, n: string)
    requires IsAlpha(p) && IsAlpha(n)
    requires ReadsNames(extract) && extract(n + "?") == Ok(Name(n + "?"))
    ensures ScanFrom(extract, p + "." + n + "?", 0, 0, 0, false, [])
         == Ok([Step(Obj, Name(p)), Step(Obj, Name(n + "?"))])
  {
    var e := p + "." + n + "?";
    var q := |p|;
    var first := Step(Obj, Name(p));
    assert e[0..q] == p && e[q] == '.' && e[q + 1] == n[0] && e[q + 1..] == n + "?";
    assert IsLetter(n[0]);
    ScanDottedName(extract, e, 0, q, []);
    assert [] + [first] == [first];
    ScanFinalOptional(extract, e, q + 1, n, [first]);
    assert [first] + [Step(Obj, Name(n + "?"))] == [first, Step(Obj, Name(n + "?"))];
  }

  /**
    `person.name?` over `{'person': {}}`, for any two names: the empty dict is
    falsy, so the walk stops there and returns it (the docstring expects `None`).
  */
  lemma OptionalOverEmptyDict(p: string, n: string, dflt: Value)
    requires IsAlpha(p) && IsAlpha(n)
    ensures Run([Step(Obj, Name(p)), Step(Obj, Name(n + "?"))], Dict([(Str(p), Dict([]))]), dflt, 0) == Ok(Dict([]))
  {
    var steps := [Step(Obj, Name(p)), Step(Obj, Name(n + "?"))];
    RunObjStep(steps, 0, p, Dict([]), dflt);
    RunStops(steps, Dict([]), dflt, 1);
  }

  /**
    `person.name?` over a non-empty dict without the name: the `?` gives the
    default, which is `Empty` (not `None`) when none was set.
  */
  lemma OptionalMissingGivesDefault(p: string, n: string, inner: Value, dflt: Value)
    requires IsAlpha(p) && IsAlpha(n) && inner.Dict? && inner.entries != []
    requires forall k :: 0 <= k < |inner.entries| ==> inner.entries[k].0 != Str(n)
    ensures Run([Step(Obj, Name(p)), Step(Obj, Name(n + "?"))], Dict([(Str(p), inner)]), dflt, 0) == Ok(dflt)
  {
    var steps := [Step(Obj, Name(p)), Step(Obj, Name(n + "?"))];
    RunObjStep(steps, 0, p, inner, dflt);
    assert FormatAttribute(n + "?") == n by {
      assert RemoveChar(n + "?", '?') == n by {
        assert forall k :: 0 <= k < |n| ==> n[k] != '?';
        RemoveCharAbsent(n, '?');
        RemoveCharAppend(n, '?');
      }
      assert forall k :: 0 <= k < |n| ==> n[k] != '^';
      RemoveCharAbsent(n, '^');
    }
    assert GetAttribute(inner, n).NotFound?;
    assert EndsWithQuestion(n + "?");
    RunMissingKey(steps, inner, dflt, 1, n + "?");
  }

  /** Dropping `c` from `s + [c]` drops the last character and whatever `c`s `s` holds. */
  lemma {:induction false} RemoveCharAppend(s: string, c: char)
    ensures RemoveChar(s + [c], c) == RemoveChar(s, c)
    decreases |s|
  {
    if s == [] {
      assert RemoveChar([c], c) == [] + RemoveChar([], c);
    } else {
      assert (s + [c])[1..] == s[1..] + [c];
      RemoveCharAppend(s[1..], c);
    }
  }

  /**
    The `?` dropped from `a.b?.c` leaves `b` required: over a non-empty dict
    without `b`, the walk raises when no default is set.
  */
  lemma InnerQuestionNotOptional(a: string, b: string, c: string, inner: Value)
    requires IsAlpha(a) && IsAlpha(b) && inner.Dict? && inner.entries != []
    requires forall k :: 0 <= k < |inner.entries| ==> inner.entries[k].0 != Str(b)
    ensures Run([Step(Obj, Name(a)), Step(Obj, Name(b)), Step(Obj, Name(c))], Dict([(Str(a), inner)]), Empty, 0)
            == Err(ValueDoesNotExist(b))
  {
    var steps := [Step(Obj, Name(a)), Step(Obj, Name(b)), Step(Obj, Name(c))];
    RunObjStep(steps, 0, a, inner, Empty);
    assert forall k :: 0 <= k < |b| ==> b[k] != '?' && b[k] != '^';
    FormatAttributeKeeps(b);
    assert GetAttribute(inner, b).NotFound?;
    RunMissingKey(steps, inner, Empty, 1, b);
  }

  /** An operator directly before `[` is refused, whatever the extractor reads. */
  lemma ScanIndexAfterOperator(extract: Extractor)
    requires extract("a") == Ok(Name("a"))
    ensures ScanFrom(extract, "a.[1]", 0, 0, 0, false, []) == Err(IndexAfterOperator)
  {
    var e := "a.[1]";
    assert e[0..1] == "a" && e[1] == '.' && e[2] == '[';
    assert ScanFrom(extract, e, 0, 0, 0, false, []) == ScanFrom(extract, e, 1, 0, 0, false, []);
    assert ScanFrom(extract, e, 1, 0, 0, false, [])
        == ScanSegment(extract, e, 1, 0, false, [], Ok(Name("a")));
  }

  /** `a.[1]` is a syntax error: an index may not follow `.`. */
  lemma ParseRejectsIndexAfterDot()
    ensures Parse("a.[1]") == Err(IndexAfterOperator)
  {
    ExtractName("a");
    ScanIndexAfterOperator(ExtractAttribute);
  }
}
