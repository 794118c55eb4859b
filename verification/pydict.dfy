/**
  Python's insertion-ordered `dict` (and `OrderedDict`) as a sequence of
  entries: assigning to an existing key replaces its value where it stands,
  assigning to a new key appends an entry.
*/
module PyDict {
  import opened PyValue
  import PySeq

  type Entries = seq<(Value, Value)>

  /** No key appears twice, as in every dict Python builds. */
  predicate UniqueKeys(d: Entries) {
    forall i, j :: 0 <= i < j < |d| ==> d[i].0 != d[j].0
  }

  predicate HasKey(d: Entries, k: Value) {
    exists i :: 0 <= i < |d| && d[i].0 == k
  }

  /** Two entry sequences with the same keys at the same positions. */
  predicate SameKeys(a: Entries, b: Entries) {
    |a| == |b| && forall i :: 0 <= i < |a| ==> a[i].0 == b[i].0
  }

  /** The position of the first entry with key `k`, or -1 when there is none. */
  function IndexOf(d: Entries, k: Value): (i: int)
    ensures -1 <= i < |d|
    ensures i >= 0 ==> d[i].0 == k && forall j :: 0 <= j < i ==> d[j].0 != k
    ensures i < 0 ==> !HasKey(d, k)
    decreases |d|
  {
    if d == [] then -1
    else if d[0].0 == k then 0
    else
      var j := IndexOf(d[1..], k);
      assert forall m :: 1 <= m < |d| ==> d[m] == d[1..][m - 1];
      if j < 0 then -1 else j + 1
  }

  /** `d[k] = v`. */
  function Set(d: Entries, k: Value, v: Value): (r: Entries)
    ensures HasKey(d, k) ==> SameKeys(r, d) && r[IndexOf(d, k)] == (k, v)
    ensures HasKey(d, k) ==> forall j :: 0 <= j < |d| && j != IndexOf(d, k) ==> r[j] == d[j]
    ensures !HasKey(d, k) ==> r == d + [(k, v)]
    ensures UniqueKeys(d) ==> UniqueKeys(r)
  {
    var i := IndexOf(d, k);
    if i >= 0 then d[i := (k, v)] else d + [(k, v)]
  }

  /** Python's `d.get(k)` agrees with the first entry holding `k`. */
  lemma {:induction false} FindKeyAt(d: Entries, k: Value)
    ensures FindKey(d, k) == if IndexOf(d, k) >= 0 then Found(d[IndexOf(d, k)].1) else NotFound
    decreases |d|
  {
    if d != [] && d[0].0 != k {
      FindKeyAt(d[1..], k);
    }
  }

  /** After `d[k] = v`, `d[k]` is `v`. */
  lemma SetThenGet(d: Entries, k: Value, v: Value)
    ensures FindKey(Set(d, k, v), k) == Found(v)
  {
    var r := Set(d, k, v);
    FindKeyAt(r, k);
    if !HasKey(d, k) {
      assert r[|d|].0 == k;
    }
  }

  /** `d[k] = v` leaves every other key's value as it was. */
  lemma SetKeepsOthers(d: Entries, k: Value, v: Value, other: Value)
    requires other != k
    ensures FindKey(Set(d, k, v), other) == FindKey(d, other)
  {
    var r := Set(d, k, v);
    FindKeyAt(r, other);
    FindKeyAt(d, other);
    if HasKey(d, k) {
      assert IndexOf(r, other) == IndexOf(d, other);
    } else {
      assert forall j :: 0 <= j < |d| ==> r[j] == d[j];
      assert IndexOf(r, other) == IndexOf(d, other);
    }
  }

  /** `d[k] = v` leaves the value of every other key as it was. */
  lemma SetKeepsAll(d: Entries, k: Value, v: Value)
    ensures forall other :: other != k ==> FindKey(Set(d, k, v), other) == FindKey(d, other)
  {
    forall other | other != k ensures FindKey(Set(d, k, v), other) == FindKey(d, other) {
      SetKeepsOthers(d, k, v, other);
    }
  }

  /** The `for k, v in es: d[k] = v` loop: each entry of `es` assigned in turn. */
  function SetAll(d: Entries, es: Entries): (r: Entries)
    ensures UniqueKeys(d) ==> UniqueKeys(r)
    decreases |es|
  {
    if es == [] then d else Set(SetAll(d, es[..|es| - 1]), es[|es| - 1].0, es[|es| - 1].1)
  }

  /** Assigning the entries of a dict one by one into an empty dict rebuilds it. */
  lemma {:induction false} SetAllRebuilds(es: Entries)
    requires UniqueKeys(es)
    ensures SetAll([], es) == es
    decreases |es|
  {
    if es != [] {
      var front := es[..|es| - 1];
      SetAllRebuilds(front);
      assert !HasKey(front, es[|es| - 1].0);
      assert front + [es[|es| - 1]] == es;
    }
  }

  /** `d[k] = v` adds `k` to the keys and removes none. */
  lemma SetHasKey(d: Entries, k: Value, v: Value, other: Value)
    ensures HasKey(Set(d, k, v), other) <==> HasKey(d, other) || other == k
  {
    var r := Set(d, k, v);
    if HasKey(d, k) {
      assert forall j :: 0 <= j < |d| ==> r[j].0 == d[j].0;
    } else {
      assert r[|d|].0 == k;
      assert forall j :: 0 <= j < |d| ==> r[j] == d[j];
    }
  }

  /** Assigning all entries of `es` adds exactly the keys of `es`. */
  lemma {:induction false} SetAllHasKey(d: Entries, es: Entries, other: Value)
    ensures HasKey(SetAll(d, es), other) <==> HasKey(d, other) || HasKey(es, other)
    decreases |es|
  {
    if es != [] {
      var front := es[..|es| - 1];
      var last := es[|es| - 1];
      SetAllHasKey(d, front, other);
      SetHasKey(SetAll(d, front), last.0, last.1, other);
      assert front + [last] == es;
      HasKeySnoc(front, last, other);
    }
  }

  lemma HasKeySnoc(front: Entries, last: (Value, Value), k: Value)
    ensures HasKey(front + [last], k) <==> HasKey(front, k) || last.0 == k
  {
    var es := front + [last];
    if HasKey(es, k) {
      var i :| 0 <= i < |es| && es[i].0 == k;
      if i < |front| {
        assert front[i].0 == k;
      }
    }
    if HasKey(front, k) {
      var i :| 0 <= i < |front| && front[i].0 == k;
      assert es[i].0 == k;
    }
    if last.0 == k {
      assert es[|front|].0 == k;
    }
  }

  /** `list(d)`: the keys in insertion order. */
  function Keys(d: Entries): (r: seq<Value>)
    ensures |r| == |d| && forall i :: 0 <= i < |d| ==> r[i] == d[i].0
  {
    seq(|d|, i requires 0 <= i < |d| => d[i].0)
  }

  lemma KeysHasKey(d: Entries, k: Value)
    ensures HasKey(d, k) <==> k in Keys(d)
  {
    if k in Keys(d) {
      var i :| 0 <= i < |d| && Keys(d)[i] == k;
    }
    if HasKey(d, k) {
      var i :| 0 <= i < |d| && d[i].0 == k;
      assert Keys(d)[i] == k;
    }
  }

  lemma KeysSnoc(es: Entries)
    requires es != []
    ensures Keys(es) == Keys(es[..|es| - 1]) + [es[|es| - 1].0]
  {
  }

  /** `d[k] = v` keeps the key order, appending `k` when it is new. */
  lemma SetKeys(d: Entries, k: Value, v: Value)
    ensures Keys(Set(d, k, v)) == if k in Keys(d) then Keys(d) else Keys(d) + [k]
  {
    KeysHasKey(d, k);
  }

  /** The value of the last entry of `es` with key `k`: the one a run of assignments leaves. */
  function LastAssigned(es: Entries, k: Value): (r: Lookup)
    ensures r.Found? <==> HasKey(es, k)
    ensures r.Found? ==> (k, r.value) in es
    decreases |es|
  {
    if es == [] then NotFound
    else
      var front, last := es[..|es| - 1], es[|es| - 1];
      assert es == front + [last];
      HasKeySnoc(front, last, k);
      if last.0 == k then Found(last.1) else LastAssigned(front, k)
  }

  /** After assigning the entries of `es`, a key holds the last value `es` gave it, or its old value. */
  lemma {:induction false} SetAllLookup(d: Entries, es: Entries, k: Value)
    ensures FindKey(SetAll(d, es), k) == if HasKey(es, k) then LastAssigned(es, k) else FindKey(d, k)
    decreases |es|
  {
    if es != [] {
      var front, last := es[..|es| - 1], es[|es| - 1];
      SetAllLookup(d, front, k);
      assert front + [last] == es;
      HasKeySnoc(front, last, k);
      if last.0 == k {
        SetThenGet(SetAll(d, front), k, last.1);
      } else {
        SetKeepsOthers(SetAll(d, front), last.0, last.1, k);
      }
    }
  }

  /** Assigning the entries of `es` keeps the old keys first and appends each new key once, in order. */
  lemma {:induction false} SetAllKeys(d: Entries, es: Entries)
    requires UniqueKeys(d)
    ensures Keys(SetAll(d, es)) == PySeq.Dedup(Keys(d) + Keys(es))
    decreases |es|
  {
    if es == [] {
      assert Keys(d) + Keys(es) == Keys(d);
      PySeq.DedupDistinct(Keys(d));
    } else {
      var front, last := es[..|es| - 1], es[|es| - 1];
      SetAllKeys(d, front);
      SetKeys(SetAll(d, front), last.0, last.1);
      KeysSnoc(es);
      assert Keys(d) + Keys(es) == (Keys(d) + Keys(front)) + [last.0];
      PySeq.DedupSnoc(Keys(d) + Keys(front), last.0);
    }
  }

  /** Two runs of assignments are one run over both. */
  lemma {:induction false} SetAllAppend(d: Entries, a: Entries, b: Entries)
    ensures SetAll(SetAll(d, a), b) == SetAll(d, a + b)
    decreases |b|
  {
    if b == [] {
      assert a + b == a;
    } else {
      SetAllAppend(d, a, b[..|b| - 1]);
      assert (a + b)[..|a + b| - 1] == a + b[..|b| - 1];
    }
  }
}
