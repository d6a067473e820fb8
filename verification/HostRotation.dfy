/** Choosing the next host: the smallest ID above the old host's, wrapping round to the smallest of all. */
module HostRotation {
  import opened Basics

  ghost predicate Ascending(s: seq<int>) {
    forall i, j :: 0 <= i < j < |s| ==> s[i] <= s[j]
  }

  function Insert(x: int, s: seq<int>): seq<int> {
    if s == [] then [x]
    else if x <= s[0] then [x] + s
    else [s[0]] + Insert(x, s[1..])
  }

  /** What sorting a copy of the IDs gives. */
  function Sorted(s: seq<int>): seq<int> {
    if s == [] then [] else Insert(s[0], Sorted(s[1..]))
  }

  lemma {:induction false} InsertPermutes(x: int, s: seq<int>)
    ensures multiset(Insert(x, s)) == multiset(s) + multiset{x}
    decreases |s|
  {
    if s != [] && x > s[0] {
      assert s == [s[0]] + s[1..];
      InsertPermutes(x, s[1..]);
    }
  }

  lemma {:induction false} SortedPermutes(s: seq<int>)
    ensures multiset(Sorted(s)) == multiset(s)
    decreases |s|
  {
    if s != [] {
      assert s == [s[0]] + s[1..];
      SortedPermutes(s[1..]);
      InsertPermutes(s[0], Sorted(s[1..]));
    }
  }

  ghost predicate AtLeast(low: int, s: seq<int>) {
    forall i :: 0 <= i < |s| ==> low <= s[i]
  }

  lemma {:induction false} InsertAtLeast(low: int, x: int, s: seq<int>)
    requires low <= x && AtLeast(low, s)
    ensures AtLeast(low, Insert(x, s))
    decreases |s|
  {
    if s != [] && x > s[0] {
      InsertAtLeast(low, x, s[1..]);
    }
  }

  lemma {:induction false} InsertAscends(x: int, s: seq<int>)
    requires Ascending(s)
    ensures Ascending(Insert(x, s))
    decreases |s|
  {
    if s != [] && x > s[0] {
      InsertAscends(x, s[1..]);
      InsertAtLeast(s[0], x, s[1..]);
    }
  }

  lemma {:induction false} SortedAscends(s: seq<int>)
    ensures Ascending(Sorted(s))
    decreases |s|
  {
    if s != [] {
      SortedAscends(s[1..]);
      InsertAscends(s[0], Sorted(s[1..]));
    }
  }

  lemma SameMembers(ids: seq<int>, x: int)
    ensures x in ids <==> x in Sorted(ids)
  {
    SortedPermutes(ids);
    assert x in ids <==> x in multiset(ids);
    assert x in Sorted(ids) <==> x in multiset(Sorted(ids));
  }

  lemma SortedLength(ids: seq<int>)
    ensures |Sorted(ids)| == |ids|
  {
    SortedPermutes(ids);
    assert |multiset(Sorted(ids))| == |multiset(ids)|;
  }

  /** The first ID above the old host's in a sorted list, else the first of all. */
  function FirstAbove(s: seq<int>, host: int, i: nat): int
    requires i <= |s| && s != []
    decreases |s| - i
  {
    if i == |s| then s[0] else if s[i] > host then s[i] else FirstAbove(s, host, i + 1)
  }

  function Pick(ids: seq<int>, host: int): Option<int> {
    if ids == [] then None
    else
      SortedLength(ids);
      Some(FirstAbove(Sorted(ids), host, 0))
  }

  method PickNextHost(ids: seq<int>, host: int) returns (r: Option<int>)
    ensures r == Pick(ids, host)
  {
    if |ids| == 0 { return None; }
    var sorted := Sorted(ids);
    SortedLength(ids);
    var i := 0;
    while i < |sorted|
      invariant 0 <= i <= |sorted|
      invariant FirstAbove(sorted, host, i) == FirstAbove(sorted, host, 0)
    {
      if sorted[i] > host { return Some(sorted[i]); }
      i := i + 1;
    }
    return Some(sorted[0]);
  }

  /** The successor of `host` among the IDs, in the cyclic order of the integers. */
  ghost predicate Successor(ids: seq<int>, host: int, next: int) {
    && next in ids
    && if next > host then forall x :: x in ids && x > host ==> next <= x
       else forall x :: x in ids ==> next <= x && x <= host
  }

  lemma {:induction false} FirstAboveIs(s: seq<int>, host: int, i: nat)
    requires i <= |s| && s != [] && Ascending(s)
    requires forall j :: 0 <= j < i ==> s[j] <= host
    ensures Successor(s, host, FirstAbove(s, host, i))
    decreases |s| - i
  {
    if i < |s| && s[i] <= host {
      FirstAboveIs(s, host, i + 1);
    }
  }

  lemma SuccessorUnique(ids: seq<int>, host: int, x: int, y: int)
    requires Successor(ids, host, x) && Successor(ids, host, y)
    ensures x == y
  {
  }

  lemma SortedSuccessor(ids: seq<int>, host: int, next: int)
    ensures Successor(ids, host, next) <==> Successor(Sorted(ids), host, next)
  {
    forall x
      ensures x in ids <==> x in Sorted(ids)
    {
      SameMembers(ids, x);
    }
  }

  /** The pick is the cyclic successor, which is unique; it is missing only when there is nobody. */
  lemma PickIsSuccessor(ids: seq<int>, host: int, x: int)
    ensures Pick(ids, host).None? <==> ids == []
    ensures Successor(ids, host, x) <==> Pick(ids, host) == Some(x)
  {
    if ids != [] {
      SortedLength(ids);
      SortedAscends(ids);
      var next := FirstAbove(Sorted(ids), host, 0);
      FirstAboveIs(Sorted(ids), host, 0);
      SortedSuccessor(ids, host, next);
      if Successor(ids, host, x) {
        SuccessorUnique(ids, host, x, next);
      }
    }
  }

  // ---- Fairness ----

  /** The host after k rotations, while the members stay the same. */
  function Rotate(ids: seq<int>, host: int, k: nat): int {
    if k == 0 then host
    else
      match Pick(ids, Rotate(ids, host, k - 1))
      case Some(next) => next
      case None => host
  }

  ghost predicate Distinct(s: seq<int>) {
    forall i, j :: 0 <= i < j < |s| ==> s[i] != s[j]
  }

  lemma DistinctSorted(ids: seq<int>)
    requires Distinct(ids)
    ensures Distinct(Sorted(ids)) && |Sorted(ids)| == |ids| && Ascending(Sorted(ids))
  {
    var s := Sorted(ids);
    SortedLength(ids);
    SortedAscends(ids);
    SortedPermutes(ids);
    forall i, j | 0 <= i < j < |s|
      ensures s[i] != s[j]
    {
      OnceInMultiset(ids, s[i]);
      if s[i] == s[j] {
        TwiceInMultiset(s, i, j);
      }
    }
  }

  lemma TwiceInMultiset(s: seq<int>, i: nat, j: nat)
    requires i < j < |s| && s[i] == s[j]
    ensures multiset(s)[s[i]] >= 2
  {
    assert s == s[..i] + [s[i]] + s[i + 1..j] + [s[j]] + s[j + 1..];
  }

  lemma {:induction false} OnceInMultiset(s: seq<int>, x: int)
    requires Distinct(s)
    ensures multiset(s)[x] <= 1
    decreases |s|
  {
    if s != [] {
      assert s == [s[0]] + s[1..];
      OnceInMultiset(s[1..], x);
    }
  }

  /** Positions in a ring of n places. */
  function Wrap(i: nat, n: nat): nat
    requires i < 2 * n
  {
    if i < n then i else i - n
  }

  lemma NextInRing(s: seq<int>, i: nat)
    requires i < |s| && forall j, k :: 0 <= j < k < |s| ==> s[j] < s[k]
    ensures Successor(s, s[i], s[Wrap(i + 1, |s|)])
  {
    if i + 1 < |s| {
      forall x | x in s && x > s[i]
        ensures s[i + 1] <= x
      {
        var j :| 0 <= j < |s| && s[j] == x;
      }
    } else {
      forall x | x in s
        ensures s[0] <= x <= s[i]
      {
        var j :| 0 <= j < |s| && s[j] == x;
      }
    }
  }

  /** One rotation moves one place on in the sorted list. */
  lemma OnePlaceOn(ids: seq<int>, i: nat)
    requires Distinct(ids) && i < |ids| == |Sorted(ids)|
    ensures Pick(ids, Sorted(ids)[i]) == Some(Sorted(ids)[Wrap(i + 1, |ids|)])
  {
    DistinctSorted(ids);
    var s := Sorted(ids);
    var next := s[Wrap(i + 1, |ids|)];
    NextInRing(s, i);
    SortedSuccessor(ids, s[i], next);
    PickIsSuccessor(ids, s[i], next);
  }

  lemma {:induction false} RotatePosition(ids: seq<int>, i: nat, k: nat)
    requires Distinct(ids) && i < |ids| == |Sorted(ids)| && k <= |ids|
    ensures Rotate(ids, Sorted(ids)[i], k) == Sorted(ids)[Wrap(i + k, |ids|)]
    decreases k
  {
    if k > 0 {
      RotatePosition(ids, i, k - 1);
      OnePlaceOn(ids, Wrap(i + k - 1, |ids|));
    }
  }

  lemma NoRepeat(ids: seq<int>, i: nat, j: nat, k: nat)
    requires Distinct(ids) && i < |ids| == |Sorted(ids)| && j < k < |ids|
    ensures Rotate(ids, Sorted(ids)[i], j) != Rotate(ids, Sorted(ids)[i], k)
  {
    DistinctSorted(ids);
    RotatePosition(ids, i, j);
    RotatePosition(ids, i, k);
  }

  /**
   Rotation is fair: among n members, n rotations starting from any of them pass through every
   member, no two of them alike, and lead back to the start.
   */
  lemma Fair(ids: seq<int>, host: int, member: int)
    requires Distinct(ids) && host in ids && member in ids
    ensures Rotate(ids, host, |ids|) == host
    ensures exists k :: 0 <= k < |ids| && Rotate(ids, host, k) == member
    ensures forall j, k :: 0 <= j < k < |ids| ==> Rotate(ids, host, j) != Rotate(ids, host, k)
  {
    var s, n := Sorted(ids), |ids|;
    SortedLength(ids);
    SameMembers(ids, host);
    SameMembers(ids, member);
    var i :| 0 <= i < |s| && s[i] == host;
    var m :| 0 <= m < |s| && s[m] == member;
    RotatePosition(ids, i, n);
    var k := if m >= i then m - i else m - i + n;
    RotatePosition(ids, i, k);
    assert Rotate(ids, host, k) == member;
    forall j, k | 0 <= j < k < n
      ensures Rotate(ids, host, j) != Rotate(ids, host, k)
    {
      NoRepeat(ids, i, j, k);
    }
  }
}
