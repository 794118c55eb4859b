/**
  The dynamic data the library walks over and validates: Python's None, the
  library's two sentinels (`Empty`, `Null`), scalars, lists, tuples,
  insertion-ordered dicts and callables (named, never invoked).
*/
module PyValue {
  import opened Wrappers

  datatype Value =
    | PyNone
    | Empty          // the class `Empty`, used as "no argument given"; a class object is truthy
    | Null           // the `Null` singleton; falsy
    | Bool(b: bool)
    | Int(i: int)
    | Str(s: string)
    | List(items: seq<Value>)
    | Tuple(items: seq<Value>)
    | Dict(entries: seq<(Value, Value)>)
    | Callable(name: string)

  /** Python's `bool(v)`. */
  predicate Truthy(v: Value) {
    match v
    case PyNone => false
    case Empty => true
    case Null => false
    case Bool(b) => b
    case Int(i) => i != 0
    case Str(s) => s != ""
    case List(items) => items != []
    case Tuple(items) => items != []
    case Dict(entries) => entries != []
    case Callable(_) => true
  }

  /** `isinstance(v, (list, tuple))`. */
  predicate InstanceOfListOrTuple(v: Value) {
    v.List? || v.Tuple?
  }

  /**
    Whether `v` can be a dict key: lists and dicts cannot, tuples only when all
    their items can, and neither can `Null`, whose class defines `__eq__`
    without `__hash__`.
  */
  predicate Hashable(v: Value)
    decreases v
  {
    match v
    case List(_) => false
    case Dict(_) => false
    case Null => false
    case Tuple(items) => forall k :: 0 <= k < |items| ==> Hashable(items[k])
    case _ => true
  }

  /** `callable(v)`: functions, and `Empty`, which is a class. */
  predicate IsCallable(v: Value) {
    v.Callable? || v.Empty?
  }

  datatype Lookup = Found(value: Value) | NotFound

  /**
    The attribute accessor the evaluator calls: a key lookup for dicts (first
    entry with that string key), and "not found" for every other value.
  */
  function GetAttribute(container: Value, key: string): (r: Lookup)
    ensures r.Found? ==> container.Dict? && (Str(key), r.value) in container.entries
    ensures container.Dict? && (exists x :: (Str(key), x) in container.entries) ==> r.Found?
  {
    if container.Dict? then FindKey(container.entries, Str(key)) else NotFound
  }

  function FindKey(entries: seq<(Value, Value)>, key: Value): (r: Lookup)
    ensures r.Found? <==> exists x :: (key, x) in entries
    ensures r.Found? ==> (key, r.value) in entries
    decreases |entries|
  {
    if entries == [] then NotFound
    else if entries[0].0 == key then Found(entries[0].1)
    else
      var r := FindKey(entries[1..], key);
      assert forall x :: (key, x) in entries ==> (key, x) in entries[1..];
      r
  }
}
