/**
  `typecrate/fields.py`: choice normalisation, the two stock validators, their
  error reports, and the `Field` class with its option rules.
*/
module Fields {
  import opened Wrappers
  import opened PyValue
  import opened PyDict
  import PySeq

  // ---------------------------------------------------------------------------
  // Small checks
  // ---------------------------------------------------------------------------

  /**
    `is_list_or_tuple(value)`, as the truth value of what it returns:
    `value and isinstance(value, (list, tuple))` holds exactly for a
    non-empty list or tuple.
  */
  function IsListOrTuple(v: Value): (r: bool)
    ensures r <==> (v.List? || v.Tuple?) && |v.items| > 0
  {
    Truthy(v) && InstanceOfListOrTuple(v)
  }

  /** The exceptions raised while building a field. */
  datatype FieldError =
    | OptionConflict(message: string)   // the `AssertionError`s of the option rules
    | ArgumentType(message: string)     // the `TypeError`s raised by `__init__` itself
    | NotIterable(value: Value)         // the `TypeError` of `list(value)`

  /**
    `create_list_if_none(value)`: `[]` for `None`, otherwise `list(value)`,
    which copies a list or tuple, splits a string into one-character strings,
    takes a dict's keys, and raises for anything else.
  */
  function CreateListIfNone(v: Value): (r: Result<seq<Value>, FieldError>)
    ensures v.PyNone? ==> r == Ok([])
    ensures InstanceOfListOrTuple(v) ==> r == Ok(v.items)
    ensures v.Str? ==> r.Ok? && |r.value| == |v.s| && forall i :: 0 <= i < |v.s| ==> r.value[i] == Str([v.s[i]])
    ensures v.Dict? ==> r.Ok? && |r.value| == |v.entries| && forall i :: 0 <= i < |v.entries| ==> r.value[i] == v.entries[i].0
    ensures r.Err? <==> !(v.PyNone? || v.List? || v.Tuple? || v.Str? || v.Dict?)
    ensures r.Err? ==> r.error == NotIterable(v)
  {
    match v
    case PyNone => Ok([])
    case List(items) => Ok(items)
    case Tuple(items) => Ok(items)
    case Str(s) => Ok(seq(|s|, i requires 0 <= i < |s| => Str([s[i]])))
    case Dict(entries) => Ok(seq(|entries|, i requires 0 <= i < |entries| => entries[i].0))
    case _ => Err(NotIterable(v))
  }

  // ---------------------------------------------------------------------------
  // Choices
  // ---------------------------------------------------------------------------

  /** The exceptions `to_choices_dict` can raise. */
  datatype ChoiceError =
    | Unpack(count: nat)      // `key, value = choice` on a list or tuple of another length
    | Unhashable(key: Value)  // a key that cannot be put in a dict

  /**
    `to_choices_dict(choices)` for the items of a list or tuple: the dict built
    from all choices but the last, then the last one added to it.
  */
  function ChoicesDict(choices: seq<Value>): (r: Result<Entries, ChoiceError>)
    ensures r.Ok? ==> UniqueKeys(r.value)
    decreases choices, 1
  {
    if choices == [] then Ok([])
    else
      match ChoicesDict(choices[..|choices| - 1])
      case Err(e) => Err(e)
      case Ok(d) => AddChoice(d, choices[|choices| - 1])
  }

  /**
    One pass of the loop: a scalar `c` becomes `c: c`; a pair `(k, v)` becomes
    `k: v`, or `k: to_choices_dict(v)` when `v` is a list or tuple. A scalar
    must be hashable, a list or tuple must unpack into exactly two items, and
    a group is converted before its key is stored.
  */
  function AddChoice(d: Entries, choice: Value): (r: Result<Entries, ChoiceError>)
    ensures UniqueKeys(d) && r.Ok? ==> UniqueKeys(r.value)
    ensures !InstanceOfListOrTuple(choice) ==> (r.Err? <==> !Hashable(choice))
    ensures !InstanceOfListOrTuple(choice) && r.Err? ==> r.error == Unhashable(choice)
    ensures InstanceOfListOrTuple(choice) && |choice.items| != 2 ==> r == Err(Unpack(|choice.items|))
    ensures (InstanceOfListOrTuple(choice) && |choice.items| == 2 && InstanceOfListOrTuple(choice.items[1])
             && ChoicesDict(choice.items[1].items).Err?) ==> r == Err(ChoicesDict(choice.items[1].items).error)
    ensures (InstanceOfListOrTuple(choice) && |choice.items| == 2
             && !(InstanceOfListOrTuple(choice.items[1]) && ChoicesDict(choice.items[1].items).Err?)) ==>
              (r.Err? <==> !Hashable(choice.items[0])) && (r.Err? ==> r.error == Unhashable(choice.items[0]))
    ensures r.Ok? && !InstanceOfListOrTuple(choice) ==> FindKey(r.value, choice) == Found(choice)
    ensures (r.Ok? && InstanceOfListOrTuple(choice) && |choice.items| == 2 && !InstanceOfListOrTuple(choice.items[1]))
            ==> FindKey(r.value, choice.items[0]) == Found(choice.items[1])
    ensures (r.Ok? && InstanceOfListOrTuple(choice) && |choice.items| == 2 && InstanceOfListOrTuple(choice.items[1]))
            ==> (ChoicesDict(choice.items[1].items).Ok?
                 && FindKey(r.value, choice.items[0]) == Found(Dict(ChoicesDict(choice.items[1].items).value)))
    ensures r.Ok? ==> forall k :: k != ChoiceKey(choice) ==> FindKey(r.value, k) == FindKey(d, k)
    decreases choice, 0
  {
    if !InstanceOfListOrTuple(choice) then
      if Hashable(choice) then Store(d, choice, choice) else Err(Unhashable(choice))
    else if |choice.items| != 2 then Err(Unpack(|choice.items|))
    else
      var key, value := choice.items[0], choice.items[1];
      if InstanceOfListOrTuple(value) then
        match ChoicesDict(value.items)
        case Err(e) => Err(e)
        case Ok(group) => if Hashable(key) then Store(d, key, Dict(group)) else Err(Unhashable(key))
      else if Hashable(key) then Store(d, key, value)
      else Err(Unhashable(key))
  }

  /** `ret[key] = value`, as an outcome of the loop pass. */
  function Store(d: Entries, key: Value, value: Value): (r: Result<Entries, ChoiceError>)
    ensures r == Ok(Set(d, key, value))
    ensures FindKey(r.value, key) == Found(value)
    ensures forall k :: k != key ==> FindKey(r.value, k) == FindKey(d, k)
  {
    SetThenGet(d, key, value);
    SetKeepsAll(d, key, value);
    Ok(Set(d, key, value))
  }

  /** Once a choice raises, later choices change nothing: the first error is the outcome. */
  lemma {:induction false} ChoicesErrorSticks(choices: seq<Value>, n: nat)
    requires n <= |choices| && ChoicesDict(choices[..n]).Err?
    ensures ChoicesDict(choices) == ChoicesDict(choices[..n])
    decreases |choices| - n
  {
    if n < |choices| {
      assert choices[..n + 1][..n] == choices[..n];
      ChoicesErrorSticks(choices, n + 1);
    } else {
      assert choices[..n] == choices;
    }
  }

  /** `to_choices_dict`: the loop filling an ordered dict, recursing into groups. */
  method ToChoicesDict(choices: seq<Value>) returns (r: Result<Entries, ChoiceError>)
    ensures r == ChoicesDict(choices)
    decreases choices
  {
    var ret: Entries := [];
    for i := 0 to |choices|
      invariant ChoicesDict(choices[..i]) == Ok(ret)
    {
      var choice := choices[i];
      assert choices[..i + 1][..i] == choices[..i];
      if !InstanceOfListOrTuple(choice) {
        if !Hashable(choice) {
          r := Err(Unhashable(choice));
          ChoicesErrorSticks(choices, i + 1);
          return;
        }
        ret := Set(ret, choice, choice);
      } else if |choice.items| != 2 {
        r := Err(Unpack(|choice.items|));
        ChoicesErrorSticks(choices, i + 1);
        return;
      } else {
        var key, value := choice.items[0], choice.items[1];
        if InstanceOfListOrTuple(value) {
          var group := ToChoicesDict(value.items);
          if group.Err? {
            r := Err(group.error);
            ChoicesErrorSticks(choices, i + 1);
            return;
          }
          if !Hashable(key) {
            r := Err(Unhashable(key));
            ChoicesErrorSticks(choices, i + 1);
            return;
          }
          ret := Set(ret, key, Dict(group.value));
        } else {
          if !Hashable(key) {
            r := Err(Unhashable(key));
            ChoicesErrorSticks(choices, i + 1);
            return;
          }
          ret := Set(ret, key, value);
        }
      }
    }
    assert choices[..|choices|] == choices;
    r := Ok(ret);
  }

  /** The key a choice is stored under: the choice itself, or the first of a pair. */
  function ChoiceKey(c: Value): Value {
    if InstanceOfListOrTuple(c) && |c.items| >= 1 then c.items[0] else c
  }

  /** A scalar choice or a pair whose value is not a group. */
  predicate SimpleChoice(c: Value) {
    if InstanceOfListOrTuple(c) then |c.items| == 2 && Hashable(c.items[0]) && !InstanceOfListOrTuple(c.items[1])
    else Hashable(c)
  }

  /** The entry a simple choice becomes. */
  function SimpleEntry(c: Value): (Value, Value)
    requires SimpleChoice(c)
  {
    if InstanceOfListOrTuple(c) then (c.items[0], c.items[1]) else (c, c)
  }

  /** The entries of a list of simple choices, one per choice. */
  function SimpleEntries(choices: seq<Value>): (r: Entries)
    requires forall i :: 0 <= i < |choices| ==> SimpleChoice(choices[i])
    ensures |r| == |choices| && forall i :: 0 <= i < |choices| ==> r[i] == SimpleEntry(choices[i])
  {
    seq(|choices|, i requires 0 <= i < |choices| => SimpleEntry(choices[i]))
  }

  /**
    Scalars and pairs with distinct keys give one entry each, in the order of
    the choices: `c` becomes `c: c` and `(k, v)` becomes `k: v`.
  */
  lemma {:induction false} SimpleChoices(choices: seq<Value>)
    requires forall i :: 0 <= i < |choices| ==> SimpleChoice(choices[i])
    requires forall i, j :: 0 <= i < j < |choices| ==> SimpleEntry(choices[i]).0 != SimpleEntry(choices[j]).0
    ensures ChoicesDict(choices) == Ok(SimpleEntries(choices))
    decreases |choices|
  {
    if choices != [] {
      var n := |choices| - 1;
      var front := choices[..n];
      SimpleChoices(front);
      var d := SimpleEntries(front);
      var e := SimpleEntry(choices[n]);
      assert ChoicesDict(front) == Ok(d);
      assert !HasKey(d, e.0) by {
        assert forall i :: 0 <= i < n ==> d[i].0 == SimpleEntry(choices[i]).0;
      }
      AddSimpleChoice(d, choices[n]);
      assert ChoicesDict(choices) == AddChoice(d, choices[n]);
      SimpleEntriesSnoc(choices);
    }
  }

  /** The entries of a list of simple choices are those of all but the last, then the last one's. */
  lemma SimpleEntriesSnoc(choices: seq<Value>)
    requires |choices| > 0 && forall i :: 0 <= i < |choices| ==> SimpleChoice(choices[i])
    ensures SimpleEntries(choices)
         == SimpleEntries(choices[..|choices| - 1]) + [SimpleEntry(choices[|choices| - 1])]
  {
    var n := |choices| - 1;
    var lhs, rhs := SimpleEntries(choices), SimpleEntries(choices[..n]) + [SimpleEntry(choices[n])];
    forall i | 0 <= i < |choices|
      ensures lhs[i] == rhs[i]
    {
      if i < n {
        assert choices[..n][i] == choices[i];
      }
    }
  }

  /** A simple choice whose key is new is appended as its entry. */
  lemma AddSimpleChoice(d: Entries, c: Value)
    requires SimpleChoice(c) && !HasKey(d, SimpleEntry(c).0)
    ensures AddChoice(d, c) == Ok(d + [SimpleEntry(c)])
  {
    var e := SimpleEntry(c);
    assert AddChoice(d, c) == Ok(Set(d, e.0, e.1));
  }

  /** A pair whose value is a list or tuple becomes a nested dict under its key. */
  lemma GroupChoice(key: Value, group: Value, sub: Entries)
    requires Hashable(key) && InstanceOfListOrTuple(group) && ChoicesDict(group.items) == Ok(sub)
    ensures ChoicesDict([Tuple([key, group])]) == Ok([(key, Dict(sub))])
  {
    var choice := Tuple([key, group]);
    assert [choice][..0] == [];
    assert ChoicesDict([choice]) == AddChoice([], choice);
    assert !HasKey([], key);
    assert AddChoice([], choice) == Ok(Set([], key, Dict(sub)));
    assert Set([], key, Dict(sub)) == [(key, Dict(sub))];
  }

  /** A key given again keeps its first position and takes the later value. */
  lemma RepeatedKeyKeepsPosition()
    ensures ChoicesDict([Int(1), Tuple([Int(2), Str("b")]), Tuple([Int(1), Str("a")])])
         == Ok([(Int(1), Str("a")), (Int(2), Str("b"))])
  {
    var cs := [Int(1), Tuple([Int(2), Str("b")]), Tuple([Int(1), Str("a")])];
    var front := cs[..2];
    assert front == [Int(1), Tuple([Int(2), Str("b")])];
    SimpleChoices(front);
    var d := [(Int(1), Int(1)), (Int(2), Str("b"))];
    assert SimpleEntries(front) == d;
    assert HasKey(d, Int(1)) && IndexOf(d, Int(1)) == 0;
    assert AddChoice(d, cs[2]) == Ok(Set(d, Int(1), Str("a")));
    assert ChoicesDict(cs) == AddChoice(d, cs[2]);
    var r := Set(d, Int(1), Str("a"));
    assert |r| == 2 && r[0] == (Int(1), Str("a")) && r[1] == d[1];
    assert r == [(Int(1), Str("a")), (Int(2), Str("b"))];
  }

  /** The value a choice that `to_choices_dict` accepts is stored with. */
  function StoredValue(c: Value): Value {
    if !InstanceOfListOrTuple(c) || |c.items| != 2 then c
    else if !InstanceOfListOrTuple(c.items[1]) then c.items[1]
    else match ChoicesDict(c.items[1].items)
      case Ok(group) => Dict(group)
      case Err(_) => c
  }

  /** The position of the last choice stored under `k`, or -1 when there is none. */
  function LastWithKey(choices: seq<Value>, k: Value): (i: int)
    ensures -1 <= i < |choices|
    ensures i >= 0 ==> ChoiceKey(choices[i]) == k && forall j :: i < j < |choices| ==> ChoiceKey(choices[j]) != k
    ensures i < 0 ==> forall j :: 0 <= j < |choices| ==> ChoiceKey(choices[j]) != k
    decreases |choices|
  {
    if choices == [] then -1
    else if ChoiceKey(choices[|choices| - 1]) == k then |choices| - 1
    else LastWithKey(choices[..|choices| - 1], k)
  }

  /**
    The dict `to_choices_dict` builds holds a key exactly when some choice is
    stored under it, and then the value of the last such choice: `c` for a
    scalar, `v` for a pair, and the converted group for a pair holding one.
  */
  lemma {:induction false} ChoicesLookup(choices: seq<Value>, k: Value)
    requires ChoicesDict(choices).Ok?
    ensures var i := LastWithKey(choices, k);
      FindKey(ChoicesDict(choices).value, k) == if i < 0 then NotFound else Found(StoredValue(choices[i]))
    decreases |choices|
  {
    if choices != [] {
      var n := |choices| - 1;
      var front := choices[..n];
      var c := choices[n];
      assert ChoicesDict(front).Ok?;
      ChoicesLookup(front, k);
      if ChoiceKey(c) != k {
        assert LastWithKey(choices, k) == LastWithKey(front, k);
        if LastWithKey(front, k) >= 0 {
          assert front[LastWithKey(front, k)] == choices[LastWithKey(front, k)];
        }
      }
    }
  }

  /** A group followed by a plain pair with another key: one entry each, in order. */
  lemma GroupThenPair(gk: Value, inner: seq<Value>, sub: Entries, k: Value, v: Value)
    requires Hashable(gk) && ChoicesDict(inner) == Ok(sub)
    requires Hashable(k) && !InstanceOfListOrTuple(v) && k != gk
    ensures ChoicesDict([Tuple([gk, Tuple(inner)]), Tuple([k, v])]) == Ok([(gk, Dict(sub)), (k, v)])
  {
    var group, pair := Tuple([gk, Tuple(inner)]), Tuple([k, v]);
    GroupChoice(gk, Tuple(inner), sub);
    var d := [(gk, Dict(sub))];
    var cs := [group, pair];
    assert cs[..1] == [group];
    assert ChoicesDict(cs) == AddChoice(d, pair);
    assert !HasKey(d, k);
    AddSimpleChoice(d, pair);
    assert SimpleEntry(pair) == (k, v);
    assert d + [(k, v)] == [(gk, Dict(sub)), (k, v)];
  }

  /** The mixed example: `[('Category', ((1, 'First'), (2, 'Second'))), (3, 'Third')]`. */
  lemma MixedChoices()
    ensures ChoicesDict([Tuple([Str("Category"), Tuple([Tuple([Int(1), Str("First")]), Tuple([Int(2), Str("Second")])])]),
                         Tuple([Int(3), Str("Third")])])
         == Ok([(Str("Category"), Dict([(Int(1), Str("First")), (Int(2), Str("Second"))])), (Int(3), Str("Third"))])
  {
    var inner := [Tuple([Int(1), Str("First")]), Tuple([Int(2), Str("Second")])];
    var sub := [(Int(1), Str("First")), (Int(2), Str("Second"))];
    SimpleChoices(inner);
    assert SimpleEntries(inner) == sub;
    GroupThenPair(Str("Category"), inner, sub, Int(3), Str("Third"));
  }

  /** The documented group example: `[('Group', ((1, '1st'), 2))]`. */
  lemma DocumentedGroup()
    ensures ChoicesDict([Tuple([Str("Group"), Tuple([Tuple([Int(1), Str("1st")]), Int(2)])])])
         == Ok([(Str("Group"), Dict([(Int(1), Str("1st")), (Int(2), Int(2))]))])
  {
    var inner := [Tuple([Int(1), Str("1st")]), Int(2)];
    SimpleChoices(inner);
    assert SimpleEntries(inner) == [(Int(1), Str("1st")), (Int(2), Int(2))];
    GroupChoice(Str("Group"), Tuple(inner), [(Int(1), Str("1st")), (Int(2), Int(2))]);
  }

  /**
    `flatten_choices_dict(choices)`: the entries of every dict-valued group are
    lifted to the top level, every other entry is copied, in order; nothing
    deeper than one level is lifted.
  */
  function FlattenChoices(d: Entries): (r: Entries)
    ensures UniqueKeys(r)
    decreases |d|
  {
    if d == [] then []
    else
      var front := FlattenChoices(d[..|d| - 1]);
      var (key, value) := d[|d| - 1];
      if value.Dict? then SetAll(front, value.entries) else Set(front, key, value)
  }

  /** `flatten_choices_dict`: the outer loop over the entries, the inner one over a group's entries. */
  method FlattenChoicesDict(choices: Entries) returns (r: Entries)
    ensures r == FlattenChoices(choices)
  {
    r := [];
    for i := 0 to |choices|
      invariant r == FlattenChoices(choices[..i])
    {
      var (key, value) := choices[i];
      assert choices[..i + 1][..i] == choices[..i];
      if value.Dict? {
        r := AssignAll(r, value.entries);
      } else {
        r := Set(r, key, value);
      }
    }
    assert choices[..|choices|] == choices;
  }

  /** The inner loop of `flatten_choices_dict`: a group's entries assigned one by one. */
  method AssignAll(d: Entries, group: Entries) returns (r: Entries)
    ensures r == SetAll(d, group)
  {
    r := d;
    for j := 0 to |group|
      invariant r == SetAll(d, group[..j])
    {
      assert group[..j + 1][..j] == group[..j];
      r := Set(r, group[j].0, group[j].1);
    }
    assert group[..|group|] == group;
  }

  /** A dict without groups flattens to itself. */
  lemma {:induction false} FlattenWithoutGroups(d: Entries)
    requires UniqueKeys(d) && forall i :: 0 <= i < |d| ==> !d[i].1.Dict?
    ensures FlattenChoices(d) == d
    decreases |d|
  {
    if d != [] {
      var front := d[..|d| - 1];
      FlattenWithoutGroups(front);
      assert !HasKey(front, d[|d| - 1].0);
      assert front + [d[|d| - 1]] == d;
    }
  }

  /** A single group flattens to its own entries. */
  lemma FlattenOneGroup(name: Value, group: Entries)
    requires UniqueKeys(group)
    ensures FlattenChoices([(name, Dict(group))]) == group
  {
    assert [(name, Dict(group))][..0] == [];
    SetAllRebuilds(group);
  }

  /** Only one level is lifted: a group inside a group stays a value. */
  lemma FlattenOneLevelOnly(outer: Value, inner: Value, deepest: Entries)
    ensures FlattenChoices([(outer, Dict([(inner, Dict(deepest))]))]) == [(inner, Dict(deepest))]
  {
    FlattenOneGroup(outer, [(inner, Dict(deepest))]);
  }
  /** Whether entry `e` of a choices dict contributes key `k` when flattened. */
  predicate Contributes(e: (Value, Value), k: Value) {
    if e.1.Dict? then HasKey(e.1.entries, k) else e.0 == k
  }

  /**
    The keys of the flattened dict are the keys of the non-group entries and
    the keys inside the groups, and nothing else.
  */
  lemma {:induction false} FlattenKeys(d: Entries, k: Value)
    ensures HasKey(FlattenChoices(d), k) <==> exists i :: 0 <= i < |d| && Contributes(d[i], k)
    decreases |d|
  {
    if d != [] {
      var front := d[..|d| - 1];
      var (key, value) := d[|d| - 1];
      FlattenKeys(front, k);
      if value.Dict? {
        SetAllHasKey(FlattenChoices(front), value.entries, k);
      } else {
        SetHasKey(FlattenChoices(front), key, value, k);
      }
      assert (exists i :: 0 <= i < |d| && Contributes(d[i], k))
         <==> (exists i :: 0 <= i < |front| && Contributes(front[i], k)) || Contributes(d[|d| - 1], k) by {
        assert forall i :: 0 <= i < |front| ==> d[i] == front[i];
      }
    }
  }

  /** The assignments `flatten_choices_dict` makes, in order: a group's entries, or the entry itself. */
  function Assignments(d: Entries): Entries
    decreases |d|
  {
    if d == [] then []
    else
      var (key, value) := d[|d| - 1];
      Assignments(d[..|d| - 1]) + if value.Dict? then value.entries else [(key, value)]
  }

  /** Flattening is one run of `ret[k] = v` over the assignments, starting from an empty dict. */
  lemma {:induction false} FlattenIsSetAll(d: Entries)
    ensures FlattenChoices(d) == SetAll([], Assignments(d))
    decreases |d|
  {
    if d != [] {
      var front := d[..|d| - 1];
      var (key, value) := d[|d| - 1];
      FlattenIsSetAll(front);
      var g := if value.Dict? then value.entries else [(key, value)];
      SetAllAppend([], Assignments(front), g);
      assert [(key, value)][..0] == [];
    }
  }

  /** The position of the last entry that contributes key `k`, or -1 when none does. */
  function LastContributor(d: Entries, k: Value): (i: int)
    ensures -1 <= i < |d|
    ensures i >= 0 ==> Contributes(d[i], k) && forall j :: i < j < |d| ==> !Contributes(d[j], k)
    ensures i < 0 ==> forall j :: 0 <= j < |d| ==> !Contributes(d[j], k)
    decreases |d|
  {
    if d == [] then -1
    else if Contributes(d[|d| - 1], k) then |d| - 1
    else LastContributor(d[..|d| - 1], k)
  }

  /** The last assignment of `k` in `a + b` is the one in `b` when `b` assigns it. */
  lemma {:induction false} LastAssignedAppend(a: Entries, b: Entries, k: Value)
    ensures LastAssigned(a + b, k) == if HasKey(b, k) then LastAssigned(b, k) else LastAssigned(a, k)
    decreases |b|
  {
    if b == [] {
      assert a + b == a;
    } else {
      var front := b[..|b| - 1];
      LastAssignedAppend(a, front, k);
      assert (a + b)[..|a + b| - 1] == a + front;
      assert b == front + [b[|b| - 1]];
      HasKeySnoc(front, b[|b| - 1], k);
    }
  }

  /** In a dict without repeated keys, the last entry with a key is the only one. */
  lemma {:induction false} LastAssignedUnique(es: Entries, k: Value)
    requires UniqueKeys(es)
    ensures LastAssigned(es, k) == FindKey(es, k)
    decreases |es|
  {
    FindKeyAt(es, k);
    if es != [] {
      var front := es[..|es| - 1];
      LastAssignedUnique(front, k);
      FindKeyAt(front, k);
      if es[|es| - 1].0 == k {
        assert IndexOf(es, k) == |es| - 1;
      } else {
        assert IndexOf(es, k) == IndexOf(front, k);
      }
    }
  }

  /**
    `flatten_choices_dict` stores under each key the value of the last entry
    that contributes it: the group's own value for a group, the entry's value
    otherwise; a key no entry contributes is absent.
  */
  lemma {:induction false} FlattenLookup(d: Entries, k: Value)
    requires forall i :: 0 <= i < |d| && d[i].1.Dict? ==> UniqueKeys(d[i].1.entries)
    ensures var i := LastContributor(d, k);
      FindKey(FlattenChoices(d), k)
        == if i < 0 then NotFound else if d[i].1.Dict? then FindKey(d[i].1.entries, k) else Found(d[i].1)
  {
    FlattenIsSetAll(d);
    SetAllLookup([], Assignments(d), k);
    AssignedByContributor(d, k);
  }

  /** The last assignment of `k` comes from the last entry that contributes it. */
  lemma {:induction false} AssignedByContributor(d: Entries, k: Value)
    requires forall i :: 0 <= i < |d| && d[i].1.Dict? ==> UniqueKeys(d[i].1.entries)
    ensures var i := LastContributor(d, k);
      LastAssigned(Assignments(d), k)
        == if i < 0 then NotFound else if d[i].1.Dict? then FindKey(d[i].1.entries, k) else Found(d[i].1)
    decreases |d|
  {
    if d != [] {
      var front := d[..|d| - 1];
      var (key, value) := d[|d| - 1];
      var g := if value.Dict? then value.entries else [(key, value)];
      AssignedByContributor(front, k);
      LastAssignedAppend(Assignments(front), g, k);
      if value.Dict? {
        LastAssignedUnique(g, k);
      } else {
        assert HasKey(g, k) <==> key == k;
        assert [(key, value)][..0] == [];
      }
      if !Contributes(d[|d| - 1], k) && LastContributor(front, k) >= 0 {
        assert front[LastContributor(front, k)] == d[LastContributor(front, k)];
      }
    }
  }

  /** The flattened keys are the contributed keys in the order first assigned, each once. */
  lemma FlattenOrder(d: Entries)
    ensures Keys(FlattenChoices(d)) == PySeq.Dedup(Keys(Assignments(d)))
  {
    FlattenIsSetAll(d);
    SetAllKeys([], Assignments(d));
    assert Keys([]) + Keys(Assignments(d)) == Keys(Assignments(d));
  }

  /** The keys the choices are stored under, one per choice, in order. */
  function ChoiceKeys(choices: seq<Value>): (r: seq<Value>)
    ensures |r| == |choices| && forall i :: 0 <= i < |choices| ==> r[i] == ChoiceKey(choices[i])
  {
    seq(|choices|, i requires 0 <= i < |choices| => ChoiceKey(choices[i]))
  }

  /** An accepted choice is `ret[key] = value` with its key and stored value. */
  lemma AddChoiceIsSet(d: Entries, c: Value)
    requires AddChoice(d, c).Ok?
    ensures AddChoice(d, c).value == Set(d, ChoiceKey(c), StoredValue(c))
  {
  }

  /**
    `to_choices_dict` keeps first-insertion order: its keys are the choices'
    keys with repeats dropped, each where it first appeared.
  */
  lemma {:induction false} ChoicesOrder(choices: seq<Value>)
    requires ChoicesDict(choices).Ok?
    ensures Keys(ChoicesDict(choices).value) == PySeq.Dedup(ChoiceKeys(choices))
    decreases |choices|
  {
    if choices != [] {
      var front, c := choices[..|choices| - 1], choices[|choices| - 1];
      ChoicesLast(choices);
      var d := ChoicesDict(front).value;
      ChoicesOrder(front);
      SetKeys(d, ChoiceKey(c), StoredValue(c));
      ChoiceKeysSnoc(choices);
      PySeq.DedupSnoc(ChoiceKeys(front), ChoiceKey(c));
    }
  }

  /** A dict built from all the choices is the one built from all but the last, with the last stored. */
  lemma ChoicesLast(choices: seq<Value>)
    requires choices != [] && ChoicesDict(choices).Ok?
    ensures ChoicesDict(choices[..|choices| - 1]).Ok?
    ensures ChoicesDict(choices).value
         == Set(ChoicesDict(choices[..|choices| - 1]).value,
                ChoiceKey(choices[|choices| - 1]), StoredValue(choices[|choices| - 1]))
  {
    AddChoiceIsSet(ChoicesDict(choices[..|choices| - 1]).value, choices[|choices| - 1]);
  }

  lemma ChoiceKeysSnoc(choices: seq<Value>)
    requires choices != []
    ensures ChoiceKeys(choices) == ChoiceKeys(choices[..|choices| - 1]) + [ChoiceKey(choices[|choices| - 1])]
  {
    var front := choices[..|choices| - 1];
    assert forall i :: 0 <= i < |front| ==> front[i] == choices[i];
  }

  // ---------------------------------------------------------------------------
  // Error reports and the stock validators
  // ---------------------------------------------------------------------------

  /** The dict `ErrorMsg` returns, with its keys `"error"`, `"message"` and `"help"`. */
  datatype ErrorReport = ErrorReport(error: string, message: string, help: string)

  /** A field name as it appears under `"error"`: itself, or `"non_field"` when empty. */
  function ErrorKey(field: string): string {
    if field != "" then field else "non_field"
  }

  /** `ErrorMsg(field, error_msg, help_text)`: the error key is never empty. */
  function ErrorMsg(field: string, errorMsg: string, helpText: string): (r: ErrorReport)
    ensures r.error != ""
    ensures field != "" ==> r.error == field
    ensures field == "" ==> r.error == "non_field"
    ensures r.message == errorMsg && r.help == helpText
  {
    ErrorReport(ErrorKey(field), errorMsg, helpText)
  }

  /** The message both stock validators raise with. */
  function NullMessage(field: string): string {
    "`" + field + "` must not be null"
  }

  /**
    `required_validator(value, field, help_text)`: `Some(report)` is the
    `ValidationError(report)` it raises, exactly for `None` and `Empty`.
  */
  function RequiredValidator(value: Value, field: string, helpText: string): (r: Option<ErrorReport>)
    ensures r.Some? <==> value.PyNone? || value.Empty?
    ensures r.Some? ==> r.value == ErrorReport(ErrorKey(field), NullMessage(field), helpText)
  {
    if value.PyNone? || value.Empty? then Some(ErrorMsg(ErrorKey(field), NullMessage(field), helpText))
    else None
  }

  /** `null_validator(value, field, help_text)`: raises exactly for `None` and `Null`. */
  function NullValidator(value: Value, field: string, helpText: string): (r: Option<ErrorReport>)
    ensures r.Some? <==> value.PyNone? || value.Null?
    ensures r.Some? ==> r.value == ErrorReport(ErrorKey(field), NullMessage(field), helpText)
  {
    if value.PyNone? || value.Null? then Some(ErrorMsg(ErrorKey(field), NullMessage(field), helpText))
    else None
  }

  // ---------------------------------------------------------------------------
  // Field
  // ---------------------------------------------------------------------------

  const NotReadOnlyWriteOnly := "May not set both `read_only` and `write_only`"
  const NotReadOnlyRequired := "May not set both `read_only` and `required`"
  const NotRequiredDefault := "May not set both `required` and `default`"
  const ValidatorsMessage := "`validators` must be list or tuple"
  const ChoicesMessage := "`choices` must be list or tuple"
  const ValueProcessorMessage := "`value_processor` must be a callable/function"

  /** `self.__class__.__name__` for a plain `Field`. */
  const ClassName := "Field"

  /** The arguments of `Field(_type, ...)`; `required` is `None` when passed as `None`. */
  datatype FieldArgs = FieldArgs(
    typ: Value, source: Value, default: Value, nullable: bool, required: Option<bool>,
    optional: bool, validators: Value, choices: Value, readOnly: bool, writeOnly: bool,
    helpText: string, errorHelpText: string, valueProcessor: Value)

  /** The keyword defaults of the signature; the default `value_processor` is an identity lambda. */
  function Defaults(typ: Value): FieldArgs {
    FieldArgs(typ, PyNone, Empty, false, Some(true), false, PyNone, PyNone, false, false, "", "",
              Callable("<lambda>"))
  }

  /** `required=None` stands for "no default given and not read-only". */
  function ResolveRequired(a: FieldArgs): bool {
    match a.required
    case None => a.default.Empty? && !a.readOnly
    case Some(b) => b
  }

  /** The attributes `__init__` assigns from its arguments. */
  datatype FieldState = FieldState(
    typ: Value, source: Value, default: Value, nullable: bool, required: bool, optional: bool,
    validators: seq<Value>, choices: seq<Value>, readOnly: bool, writeOnly: bool,
    helpText: string, errorHelpText: string, valueProcessor: Value)

  /**
    `Field.__init__`: the three option rules (in this order), then the
    `validators`, `choices` and `value_processor` checks, then the attributes.
  */
  function InitField(a: FieldArgs): (r: Result<FieldState, FieldError>)
    ensures a.readOnly && a.writeOnly ==> r == Err(OptionConflict(NotReadOnlyWriteOnly))
    ensures !a.writeOnly && a.readOnly && ResolveRequired(a) ==> r == Err(OptionConflict(NotReadOnlyRequired))
    ensures !a.readOnly && ResolveRequired(a) && !a.default.Empty? ==> r == Err(OptionConflict(NotRequiredDefault))
    ensures a.required.None? && !(a.readOnly && a.writeOnly) ==> !(r.Err? && r.error.OptionConflict?)
    ensures r.Ok? <==> !(a.readOnly && a.writeOnly) && !(a.readOnly && ResolveRequired(a))
                       && !(ResolveRequired(a) && !a.default.Empty?)
                       && !IsListOrTuple(a.validators) && CreateListIfNone(a.validators).Ok?
                       && !IsListOrTuple(a.choices) && CreateListIfNone(a.choices).Ok?
                       && IsCallable(a.valueProcessor)
    ensures r.Ok? ==> r.value.required == ResolveRequired(a) && Truthy(r.value.source)
    ensures r.Ok? ==> r.value.source == if Truthy(a.source) then a.source else Str(ClassName)
    ensures r.Ok? ==> (r.value.validators == CreateListIfNone(a.validators).value
                       && r.value.choices == CreateListIfNone(a.choices).value)
    ensures r.Ok? ==> (&& r.value.typ == a.typ && r.value.default == a.default && r.value.nullable == a.nullable
                       && r.value.optional == a.optional && r.value.readOnly == a.readOnly
                       && r.value.writeOnly == a.writeOnly && r.value.helpText == a.helpText
                       && r.value.errorHelpText == a.errorHelpText && r.value.valueProcessor == a.valueProcessor)
  {
    var required := ResolveRequired(a);
    if a.readOnly && a.writeOnly then Err(OptionConflict(NotReadOnlyWriteOnly))
    else if a.readOnly && required then Err(OptionConflict(NotReadOnlyRequired))
    else if required && !a.default.Empty? then Err(OptionConflict(NotRequiredDefault))
    else if IsListOrTuple(a.validators) then Err(ArgumentType(ValidatorsMessage))
    else
      match CreateListIfNone(a.validators)
      case Err(e) => Err(e)
      case Ok(validators) =>
        if IsListOrTuple(a.choices) then Err(ArgumentType(ChoicesMessage))
        else
          match CreateListIfNone(a.choices)
          case Err(e) => Err(e)
          case Ok(choices) =>
            if !IsCallable(a.valueProcessor) then Err(ArgumentType(ValueProcessorMessage))
            else
              var source := if Truthy(a.source) then a.source else Str(ClassName);
              Ok(FieldState(a.typ, source, a.default, a.nullable, required, a.optional, validators, choices,
                            a.readOnly, a.writeOnly, a.helpText, a.errorHelpText, a.valueProcessor))
  }

  /**
    The list/tuple check refuses exactly what its message asks for: any
    non-empty list of validators is rejected, while `None` and `[]` pass.
  */
  lemma ValidatorListsRefused(typ: Value, validators: seq<Value>)
    ensures InitField(Defaults(typ).(validators := List(validators))).Ok? <==> validators == []
    ensures validators != [] ==>
      InitField(Defaults(typ).(validators := List(validators))) == Err(ArgumentType(ValidatorsMessage))
  {
  }

  /** With every keyword left at its default a field is required, named after its class, with no validators. */
  lemma DefaultsAccepted(typ: Value)
    ensures var r := InitField(Defaults(typ));
      r.Ok? && r.value.required && r.value.source == Str(ClassName)
      && r.value.validators == [] && r.value.choices == []
  {
  }

  /** An entry of the list the `validators` property builds. */
  datatype Validator = RequiredCheck | NullCheck | Custom(fn: Value)

  /** `__get_validators`: the built-in checks the field's flags call for. */
  function BaseChecks(required: bool, nullable: bool): (r: seq<Validator>)
    ensures |r| == (if required then 1 else 0) + (if nullable then 1 else 0)
    ensures required <==> RequiredCheck in r
    ensures nullable <==> NullCheck in r
    ensures required ==> r[0] == RequiredCheck
    ensures nullable ==> r[|r| - 1] == NullCheck
  {
    (if required then [RequiredCheck] else []) + (if nullable then [NullCheck] else [])
  }

  function Customs(fns: seq<Value>): (r: seq<Validator>)
    ensures |r| == |fns| && forall i :: 0 <= i < |fns| ==> r[i] == Custom(fns[i])
    ensures RequiredCheck !in r && NullCheck !in r
  {
    var r := seq(|fns|, i requires 0 <= i < |fns| => Custom(fns[i]));
    assert forall i :: 0 <= i < |r| ==> r[i].Custom?;
    r
  }

  class Field {
    var typ: Value
    var source: Value
    var default: Value
    var nullable: bool
    var required: bool
    var optional: bool
    var userValidators: seq<Value>
    var choices: seq<Value>
    var readOnly: bool
    var writeOnly: bool
    var helpText: string
    var errorHelpText: string
    var valueProcessor: Value
    var parent: Value
    var fieldName: Option<string>
    var sourceRoot: Value

    /** The attributes set from `__init__`'s arguments. */
    function State(): FieldState
      reads this
    {
      FieldState(typ, source, default, nullable, required, optional, userValidators, choices,
                 readOnly, writeOnly, helpText, errorHelpText, valueProcessor)
    }

    /** Not yet bound to a parent: `parent`, `field_name` and `source_root` are still `None`. */
    predicate Unbound()
      reads this
    {
      parent.PyNone? && fieldName.None? && sourceRoot.PyNone?
    }

    constructor (s: FieldState)
      ensures State() == s && Unbound()
    {
      typ, source, default, nullable := s.typ, s.source, s.default, s.nullable;
      required, optional := s.required, s.optional;
      userValidators, choices := s.validators, s.choices;
      readOnly, writeOnly, helpText, errorHelpText := s.readOnly, s.writeOnly, s.helpText, s.errorHelpText;
      valueProcessor := s.valueProcessor;
      parent, fieldName, sourceRoot := PyNone, None, PyNone;
    }

    /** `Field(_type, ...)`: a new unbound field, or the exception `__init__` raises. */
    static method New(a: FieldArgs) returns (r: Result<Field, FieldError>)
      ensures r.Err? ==> InitField(a) == Err(r.error)
      ensures r.Ok? ==> fresh(r.value) && InitField(a) == Ok(r.value.State()) && r.value.Unbound()
      ensures r.Ok? ==> Truthy(r.value.source)
    {
      match InitField(a)
      case Err(e) =>
        r := Err(e);
      case Ok(s) =>
        var f := new Field(s);
        r := Ok(f);
    }

    /**
      The `validators` property: `required_validator` when required, then
      `null_validator` when nullable, then the user's validators, then what
      `get_default_validators` returns (`defaults`; nothing for `Field` itself).
    */
    method Validators(defaults: seq<Value>) returns (vs: seq<Validator>)
      ensures var b := |BaseChecks(required, nullable)|;
        && |vs| == b + |userValidators| + |defaults|
        && vs[..b] == BaseChecks(required, nullable)
        && vs[b..b + |userValidators|] == Customs(userValidators)
        && vs[b + |userValidators|..] == Customs(defaults)
      ensures required <==> RequiredCheck in vs
      ensures nullable <==> NullCheck in vs
    {
      var base := BaseChecks(required, nullable);
      var users := Customs(userValidators);
      vs := base + users;
      if defaults != [] {
        vs := vs + Customs(defaults);
      }
      assert vs[..|base|] == base;
      assert vs[|base|..|base| + |users|] == users;
    }

    /** `bind(field_name, parent)`: the source falls back to the field name only when it is falsy. */
    method Bind(name: string, p: Value)
      modifies this
      ensures fieldName == Some(name) && parent == p && sourceRoot == old(sourceRoot)
      ensures source == if Truthy(old(source)) then old(source) else Str(name)
      ensures State() == old(State()).(source := source)
    {
      ghost var before := State();
      fieldName := Some(name);
      parent := p;
      if !Truthy(source) {
        source := Str(name);
      }
      assert State() == before.(source := source);
    }
  }

  /** A field made by `__init__` always has a truthy source, so `bind` never replaces it. */
  method BindKeepsInitSource(a: FieldArgs, name: string, p: Value) returns (f: Result<Field, FieldError>)
    ensures f.Ok? ==> InitField(a).Ok? && f.value.source == InitField(a).value.source
    ensures f.Ok? ==> f.value.fieldName == Some(name)
  {
    f := Field.New(a);
    if f.Ok? {
      f.value.Bind(name, p);
    }
  }
}
