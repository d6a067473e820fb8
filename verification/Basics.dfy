/** Shared vocabulary: options, bytes, and the few sequence facts used across the project. */
module Basics {

  datatype Option<+T> = None | Some(value: T)

  type Byte = b: int | 0 <= b < 256

  /** s is a (not necessarily strict) prefix of t. */
  ghost predicate Prefix<T>(s: seq<T>, t: seq<T>) {
    |s| <= |t| && s == t[..|s|]
  }

  function Min(a: int, b: int): (r: int)
    ensures r <= a && r <= b && (r == a || r == b)
  {
    if a <= b then a else b
  }

  function Max(a: int, b: int): (r: int)
    ensures r >= a && r >= b && (r == a || r == b)
  {
    if a >= b then a else b
  }

  // ---- Filters ----

  function Filter<T>(wanted: T -> bool, xs: seq<T>): seq<T> {
    if xs == [] then []
    else
      var last := xs[|xs| - 1];
      Filter(wanted, xs[..|xs| - 1]) + if wanted(last) then [last] else []
  }

  lemma FilterSnoc<T>(wanted: T -> bool, xs: seq<T>, x: T)
    ensures Filter(wanted, xs + [x]) == Filter(wanted, xs) + if wanted(x) then [x] else []
  {
    assert (xs + [x])[..|xs|] == xs;
  }

  lemma {:induction false} FilterAppend<T>(wanted: T -> bool, xs: seq<T>, ys: seq<T>)
    ensures Filter(wanted, xs + ys) == Filter(wanted, xs) + Filter(wanted, ys)
    decreases |ys|
  {
    if ys == [] {
      assert xs + ys == xs;
    } else {
      var init, last := ys[..|ys| - 1], ys[|ys| - 1];
      assert xs + ys == (xs + init) + [last] && ys == init + [last];
      FilterAppend(wanted, xs, init);
      FilterSnoc(wanted, xs + init, last);
    }
  }

  lemma {:induction false} FilterNone<T>(wanted: T -> bool, xs: seq<T>)
    requires forall i :: 0 <= i < |xs| ==> !wanted(xs[i])
    ensures Filter(wanted, xs) == []
    decreases |xs|
  {
    if xs != [] {
      FilterNone(wanted, xs[..|xs| - 1]);
    }
  }

  lemma {:induction false} FilterEvery<T>(wanted: T -> bool, xs: seq<T>)
    requires forall i :: 0 <= i < |xs| ==> wanted(xs[i])
    ensures Filter(wanted, xs) == xs
    decreases |xs|
  {
    if xs != [] {
      FilterEvery(wanted, xs[..|xs| - 1]);
    }
  }
}
