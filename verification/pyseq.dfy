/** Python list indexing and slicing, and de-duplication, over Dafny sequences. */
module PySeq {
  import opened Wrappers

  /** `s[i]`, negative indices counting from the end; `None` is an `IndexError`. */
  function PyIndex<T>(s: seq<T>, i: int): Option<T>
  {
    if 0 <= i < |s| then Some(s[i])
    else if -|s| <= i < 0 then Some(s[|s| + i])
    else None
  }

  /** A slice bound adjusted for a positive step: lands in [0, n]. */
  function ClampUp(i: int, n: nat): (r: int)
    ensures 0 <= r <= n
  {
    if i < 0 then (if i + n < 0 then 0 else i + n) else if i > n then n else i
  }

  /** A slice bound adjusted for a negative step: lands in [-1, n - 1]. */
  function ClampDown(i: int, n: nat): (r: int)
    ensures -1 <= r <= n - 1
  {
    if i < 0 then (if i + n < 0 then -1 else i + n) else if i >= n then n - 1 else i
  }

  function Forward<T>(s: seq<T>, i: int, stop: int, step: int): seq<T>
    requires 0 <= i && stop <= |s| && step > 0
    decreases stop - i
  {
    if i >= stop then [] else [s[i]] + Forward(s, i + step, stop, step)
  }

  function Backward<T>(s: seq<T>, i: int, stop: int, step: int): seq<T>
    requires i <= |s| - 1 && -1 <= stop && step < 0
    decreases i - stop
  {
    if i <= stop then [] else [s[i]] + Backward(s, i + step, stop, step)
  }

  /** `s[start:stop:step]` for integer bounds and a non-zero step. */
  function PySlice<T>(s: seq<T>, start: int, stop: int, step: int): seq<T>
    requires step != 0
  {
    if step > 0 then Forward(s, ClampUp(start, |s|), ClampUp(stop, |s|), step)
    else Backward(s, ClampDown(start, |s|), ClampDown(stop, |s|), step)
  }

  lemma {:induction false} ForwardUnit<T>(s: seq<T>, i: int, stop: int)
    requires 0 <= i <= stop <= |s|
    ensures Forward(s, i, stop, 1) == s[i..stop]
    decreases stop - i
  {
    if i < stop {
      ForwardUnit(s, i + 1, stop);
      assert s[i..stop] == [s[i]] + s[i + 1..stop];
    }
  }

  /** With step 1 and in-range bounds a slice is the contiguous sub-sequence. */
  lemma SliceContiguous<T>(s: seq<T>, start: int, stop: int)
    requires 0 <= start <= stop <= |s|
    ensures PySlice(s, start, stop, 1) == s[start..stop]
  {
    ForwardUnit(s, start, stop);
  }

  lemma {:induction false} ForwardMembers<T>(s: seq<T>, i: int, stop: int, step: int)
    requires 0 <= i && stop <= |s| && step > 0
    ensures forall x :: x in Forward(s, i, stop, step) ==> x in s
    decreases stop - i
  {
    if i < stop { ForwardMembers(s, i + step, stop, step); }
  }

  lemma {:induction false} BackwardMembers<T>(s: seq<T>, i: int, stop: int, step: int)
    requires i <= |s| - 1 && -1 <= stop && step < 0
    ensures forall x :: x in Backward(s, i, stop, step) ==> x in s
    decreases i - stop
  {
    if i > stop { BackwardMembers(s, i + step, stop, step); }
  }

  /** Every element of a slice is an element of the sliced sequence. */
  lemma SliceMembers<T>(s: seq<T>, start: int, stop: int, step: int)
    requires step != 0
    ensures forall x :: x in PySlice(s, start, stop, step) ==> x in s
  {
    if step > 0 {
      ForwardMembers(s, ClampUp(start, |s|), ClampUp(stop, |s|), step);
    } else {
      BackwardMembers(s, ClampDown(start, |s|), ClampDown(stop, |s|), step);
    }
  }

  /** The position `lo + k * step` a slice visits at its `k`-th element. */
  function Stride(lo: int, step: int, k: nat): int {
    lo + k * step
  }

  lemma StrideShift(lo: int, step: int, k: nat)
    ensures Stride(lo + step, step, k) == Stride(lo, step, k + 1)
  {
    assert (k + 1) * step == k * step + step;
  }

  /**
    `r` is what slicing `s` visits from position `lo` towards `hi` with `step`:
    element `k` is `s[lo + k * step]`, every visited position lies before `hi`
    in the direction of the step, and the next one does not.
  */
  ghost predicate Strided<T>(s: seq<T>, lo: int, hi: int, step: int, r: seq<T>) {
    && (forall k: nat :: k < |r| ==> 0 <= Stride(lo, step, k) < |s| && r[k] == s[Stride(lo, step, k)])
    && (forall k: nat :: k < |r| ==> if step > 0 then Stride(lo, step, k) < hi else Stride(lo, step, k) > hi)
    && (if step > 0 then Stride(lo, step, |r|) >= hi else Stride(lo, step, |r|) <= hi)
  }

  lemma {:induction false} ForwardStrided<T>(s: seq<T>, i: int, stop: int, step: int)
    requires 0 <= i && stop <= |s| && step > 0
    ensures Strided(s, i, stop, step, Forward(s, i, stop, step))
    decreases stop - i
  {
    if i < stop {
      var rest := Forward(s, i + step, stop, step);
      ForwardStrided(s, i + step, stop, step);
      StrideShift(i, step, |rest|);
      var r := Forward(s, i, stop, step);
      forall k: nat | k < |r| ensures 0 <= Stride(i, step, k) < |s| && r[k] == s[Stride(i, step, k)]
        && Stride(i, step, k) < stop
      {
        if k > 0 {
          StrideShift(i, step, k - 1);
          assert r[k] == rest[k - 1];
        }
      }
    }
  }

  lemma {:induction false} BackwardStrided<T>(s: seq<T>, i: int, stop: int, step: int)
    requires i <= |s| - 1 && -1 <= stop && step < 0
    ensures Strided(s, i, stop, step, Backward(s, i, stop, step))
    decreases i - stop
  {
    if i > stop {
      var rest := Backward(s, i + step, stop, step);
      BackwardStrided(s, i + step, stop, step);
      StrideShift(i, step, |rest|);
      var r := Backward(s, i, stop, step);
      forall k: nat | k < |r| ensures 0 <= Stride(i, step, k) < |s| && r[k] == s[Stride(i, step, k)]
        && Stride(i, step, k) > stop
      {
        if k > 0 {
          StrideShift(i, step, k - 1);
          assert r[k] == rest[k - 1];
        }
      }
    }
  }

  /**
    `s[start:stop:step]` visits `s` from the adjusted start, one step at a
    time, up to (not including) the adjusted stop.
  */
  lemma SliceStrided<T>(s: seq<T>, start: int, stop: int, step: int)
    requires step != 0
    ensures step > 0 ==> Strided(s, ClampUp(start, |s|), ClampUp(stop, |s|), step, PySlice(s, start, stop, step))
    ensures step < 0 ==> Strided(s, ClampDown(start, |s|), ClampDown(stop, |s|), step, PySlice(s, start, stop, step))
  {
    if step > 0 {
      ForwardStrided(s, ClampUp(start, |s|), ClampUp(stop, |s|), step);
    } else {
      BackwardStrided(s, ClampDown(start, |s|), ClampDown(stop, |s|), step);
    }
  }

  predicate Distinct<T(==)>(s: seq<T>) {
    forall i, j :: 0 <= i < j < |s| ==> s[i] != s[j]
  }

  /** The distinct elements of `s`, each once, in order of first occurrence. */
  function Dedup<T(==)>(s: seq<T>): (r: seq<T>)
    ensures forall k :: 0 <= k < |r| ==> r[k] in s
    ensures forall k :: 0 <= k < |s| ==> s[k] in r
    ensures Distinct(r)
    ensures |r| <= |s|
    decreases |s|
  {
    if s == [] then []
    else
      var r := Dedup(s[..|s| - 1]);
      var x := s[|s| - 1];
      assert s == s[..|s| - 1] + [x];
      if x in r then r else r + [x]
  }

  /** A sequence of distinct elements has as many elements as its set. */
  lemma {:induction false} DistinctCard<T>(s: seq<T>)
    requires Distinct(s)
    ensures |set x | x in s| == |s|
    decreases |s|
  {
    if s != [] {
      var t := s[..|s| - 1];
      DistinctCard(t);
      var x := s[|s| - 1];
      assert s == t + [x];
      assert x !in t;
      assert (set y | y in s) == (set y | y in t) + {x};
    }
  }

  /** De-duplicating one more element: it is appended exactly when it is new. */
  lemma DedupSnoc<T>(s: seq<T>, x: T)
    ensures Dedup(s + [x]) == if x in Dedup(s) then Dedup(s) else Dedup(s) + [x]
  {
    assert (s + [x])[..|s|] == s;
  }

  /** A sequence without repeats is its own de-duplication. */
  lemma {:induction false} DedupDistinct<T>(s: seq<T>)
    requires Distinct(s)
    ensures Dedup(s) == s
    decreases |s|
  {
    if s != [] {
      var t, x := s[..|s| - 1], s[|s| - 1];
      DedupDistinct(t);
      assert s == t + [x];
      assert x !in t;
      DedupSnoc(t, x);
    }
  }
}
