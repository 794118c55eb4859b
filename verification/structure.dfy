/**
  `typecrate/structure.py`: `EArray`, a wrapper around a Python list that can
  present its elements de-duplicated.
*/
module Structure {
  import opened Wrappers
  import opened PySeq

  /** A Python list object: a mutable sequence that several owners may share. */
  class PyList<T> {
    var items: seq<T>

    constructor (xs: seq<T>)
      ensures items == xs
    {
      items := xs;
    }
  }

  /**
    What the `array` property may return for the list `items`: an in-order
    copy, or, when `unique`, each distinct element exactly once (the order of
    a Python set is not specified).
  */
  predicate IsView<T(==)>(items: seq<T>, unique: bool, v: seq<T>) {
    if unique then Distinct(v) && (forall k :: 0 <= k < |v| ==> v[k] in items)
      && (forall k :: 0 <= k < |items| ==> items[k] in v)
    else v == items
  }

  /** The number of distinct elements of `s`. */
  function DistinctCount<T(==)>(s: seq<T>): nat {
    |set x | x in s|
  }

  /** A unique view has as many elements as there are distinct elements. */
  lemma ViewLength<T>(items: seq<T>, v: seq<T>)
    requires IsView(items, true, v)
    ensures |v| == DistinctCount(items)
  {
    DistinctCard(v);
    assert (set x | x in v) == (set x | x in items);
  }

  /** The right operand of `+` and `+=`: a list, another `EArray`, or any other object. */
  datatype Operand<T(==)> = ListOperand(list: PyList<T>) | ArrayOperand(arr: EArray<T>) | OtherOperand

  class EArray<T(==)> {
    /** `_array`, the list itself, possibly shared with the caller. */
    var list: PyList<T>
    var unique: bool

    /** `EArray(unique, array)`: a missing or empty list is replaced by a new one; any other is kept, not copied. */
    constructor (unique: bool, arr: Option<PyList<T>>)
      ensures this.unique == unique
      ensures arr.Some? && arr.value.items != [] ==> list == arr.value
      ensures !(arr.Some? && arr.value.items != []) ==> fresh(list) && list.items == []
    {
      this.unique := unique;
      if arr.Some? && arr.value.items != [] {
        list := arr.value;
      } else {
        list := new PyList([]);
      }
    }

    /** The `array` property: a copy of the list, or its distinct elements when `unique`. */
    function Array(): (v: seq<T>)
      reads this, list
      ensures IsView(list.items, unique, v)
    {
      if unique then Dedup(list.items) else list.items
    }

    /** `len(a)`: the length of the view, so the number of distinct elements when `unique`. */
    function Length(): (n: nat)
      reads this, list
      ensures n == |Array()|
      ensures !unique ==> n == |list.items|
      ensures unique ==> n == DistinctCount(list.items) && n <= |list.items|
    {
      var v := Array();
      if unique then ViewLength(list.items, v); |v| else |v|
    }

    /** `a[index]`: read from the view; `None` is the `IndexError`. */
    function GetItem(index: int): (r: Option<T>)
      reads this, list
      ensures r.Some? <==> -(Length() as int) <= index < Length()
      ensures r.Some? ==> r.value in list.items
      ensures !unique ==> r == PyIndex(list.items, index)
    {
      var v := Array();
      var r := PyIndex(v, index);
      assert r.Some? ==> r.value in v;
      r
    }

    /** `a[index] = value`: writes into the list itself; `raised` is the `IndexError`. */
    method SetItem(index: int, value: T) returns (raised: bool)
      modifies list
      ensures raised <==> !(-|old(list.items)| <= index < |old(list.items)|)
      ensures raised ==> list.items == old(list.items)
      ensures !raised ==> list.items == old(list.items)[ListIndex(index, |old(list.items)|) := value]
    {
      var n := |list.items|;
      if -n <= index < n {
        list.items := list.items[ListIndex(index, n) := value];
        raised := false;
      } else {
        raised := true;
      }
    }

    /** `del a[index]`: removes from the list itself; `raised` is the `IndexError`. */
    method DelItem(index: int) returns (raised: bool)
      modifies list
      ensures raised <==> !(-|old(list.items)| <= index < |old(list.items)|)
      ensures raised ==> list.items == old(list.items)
      ensures !raised ==> var i := ListIndex(index, |old(list.items)|);
        list.items == old(list.items)[..i] + old(list.items)[i + 1..]
    {
      var n := |list.items|;
      if -n <= index < n {
        var i := ListIndex(index, n);
        list.items := list.items[..i] + list.items[i + 1..];
        raised := false;
      } else {
        raised := true;
      }
    }

    /** `insert(elem)`: appends to the list itself. */
    method Insert(elem: T)
      modifies list
      ensures list.items == old(list.items) + [elem]
      ensures !unique ==> Length() == old(Length()) + 1
      ensures unique ==> Length() == old(Length()) + (if elem in old(list.items) then 0 else 1)
    {
      ghost var before := list.items;
      list.items := list.items + [elem];
      if unique {
        AppendCount(before, elem);
      }
    }

    /**
      `a + other`: over a list, a new `EArray` with the same flag over a new
      list `_array + other`; over an `EArray`, one over the two views joined,
      unique when either is; `None` for anything else.
    */
    method Add(other: Operand<T>) returns (r: EArray?<T>)
      ensures other.OtherOperand? <==> r == null
      ensures other.ListOperand? ==> (r != null && fresh(r) && fresh(r.list)
        && r.unique == unique && r.list.items == list.items + other.list.items)
      ensures other.ArrayOperand? ==> (r != null && fresh(r) && fresh(r.list)
        && r.unique == (unique || other.arr.unique) && r.list.items == Array() + other.arr.Array())
    {
      match other
      case ListOperand(xs) =>
        var joined := new PyList(list.items + xs.items);
        r := new EArray(unique, Some(joined));
      case ArrayOperand(b) =>
        var joined := new PyList(Array() + b.Array());
        r := new EArray(unique || b.unique, Some(joined));
      case OtherOperand =>
        r := null;
    }

    /** `a += other`: the same as `a + other`, a new object rather than an update of `a`. */
    method IAdd(other: Operand<T>) returns (r: EArray?<T>)
      ensures other.OtherOperand? <==> r == null
      ensures other.ListOperand? ==> (r != null && fresh(r) && fresh(r.list)
        && r.unique == unique && r.list.items == list.items + other.list.items)
      ensures other.ArrayOperand? ==> (r != null && fresh(r) && fresh(r.list)
        && r.unique == (unique || other.arr.unique) && r.list.items == Array() + other.arr.Array())
    {
      r := Add(other);
    }
  }

  /**
    Keeping a non-empty list and replacing an empty one: an insertion through
    the `EArray` shows in the caller's list only in the first case.
  */
  method ConstructorAliasing<T(==)>(xs: PyList<T>, unique: bool, elem: T) returns (a: EArray<T>)
    modifies xs
    ensures old(xs.items) != [] ==> a.list == xs && xs.items == old(xs.items) + [elem]
    ensures old(xs.items) == [] ==> xs.items == [] && a.list.items == [elem]
  {
    a := new EArray(unique, Some(xs));
    a.Insert(elem);
  }

  /** On an `EArray` that is not unique, `a[i] = v` followed by `a[i]` gives back `v`. */
  method WriteThenRead<T(==)>(a: EArray<T>, index: int, value: T) returns (r: Option<T>)
    requires !a.unique
    modifies a.list
    ensures -|old(a.list.items)| <= index < |old(a.list.items)| ==> r == Some(value)
    ensures !(-|old(a.list.items)| <= index < |old(a.list.items)|) ==> r.None? && a.list.items == old(a.list.items)
  {
    var raised := a.SetItem(index, value);
    r := a.GetItem(index);
  }

  /** The position a Python index in `[-n, n)` designates. */
  function ListIndex(index: int, n: nat): (i: nat)
    requires -(n as int) <= index < n
    ensures i < n && (index >= 0 ==> i == index) && (index < 0 ==> i == n + index)
  {
    if index >= 0 then index else n + index
  }

  /** Appending adds one distinct element exactly when it is new. */
  lemma AppendCount<T>(s: seq<T>, x: T)
    ensures DistinctCount(s + [x]) == DistinctCount(s) + (if x in s then 0 else 1)
  {
    var before := set y | y in s;
    var after := set y | y in s + [x];
    assert after == before + {x};
    if x in s {
      assert after == before;
    } else {
      assert x !in before;
      assert |before + {x}| == |before| + 1;
    }
  }
}
