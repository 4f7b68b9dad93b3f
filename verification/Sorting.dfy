/**
 * Sorting as the code relies on it. sort.Slice promises only a sorted
 * permutation, in any order among equal elements; sort.SliceStable keeps equal
 * elements in their order. An order is a total preorder le; le both ways means
 * that the code's less function puts neither element first.
 */
module Sorting {

  ghost predicate TotalPreorder<T(!new)>(le: (T, T) -> bool) {
    && (forall x: T, y: T :: le(x, y) || le(y, x))
    && (forall x: T, y: T, z: T :: le(x, y) && le(y, z) ==> le(x, z))
  }

  predicate Sorted<T>(le: (T, T) -> bool, s: seq<T>) {
    forall i: nat, j: nat | i < j < |s| :: le(s[i], s[j])
  }

  ghost predicate Equivalent<T(!new)>(le: (T, T) -> bool, x: T, y: T) {
    le(x, y) && le(y, x)
  }

  /** What sort.Slice may leave in place of the elements of before. */
  ghost predicate IsSortOf<T>(le: (T, T) -> bool, before: seq<T>, after: seq<T>) {
    Sorted(le, after) && multiset(after) == multiset(before)
  }

  /** The stable insertion: x goes before its equals. */
  function Insert<T>(le: (T, T) -> bool, x: T, s: seq<T>): (r: seq<T>)
    ensures multiset(r) == multiset(s) + multiset{x}
  {
    if s == [] || le(x, s[0]) then [x] + s
    else
      assert s == [s[0]] + s[1..];
      [s[0]] + Insert(le, x, s[1..])
  }

  lemma {:induction false} InsertSorted<T(!new)>(le: (T, T) -> bool, x: T, s: seq<T>)
    requires TotalPreorder(le) && Sorted(le, s)
    ensures Sorted(le, Insert(le, x, s))
  {
    var r := Insert(le, x, s);
    if s == [] {
    } else if le(x, s[0]) {
      forall i: nat, j: nat | i < j < |r|
        ensures le(r[i], r[j])
      {
        if i == 0 {
          assert r[j] == s[j - 1];
          assert le(s[0], s[j - 1]) || j == 1;
        }
      }
    } else {
      var rest := Insert(le, x, s[1..]);
      InsertSorted(le, x, s[1..]);
      forall j: nat | j < |rest|
        ensures le(s[0], rest[j])
      {
        assert rest[j] in multiset(rest);
        assert rest[j] == x || rest[j] in s[1..];
      }
    }
  }

  /** A sort that keeps equal elements in their order. */
  function Sort<T>(le: (T, T) -> bool, s: seq<T>): (r: seq<T>)
    ensures multiset(r) == multiset(s)
  {
    if s == [] then []
    else
      assert s == [s[0]] + s[1..];
      Insert(le, s[0], Sort(le, s[1..]))
  }

  lemma {:induction false} SortIsSort<T(!new)>(le: (T, T) -> bool, s: seq<T>)
    requires TotalPreorder(le)
    ensures IsSortOf(le, s, Sort(le, s))
  {
    if s != [] {
      SortIsSort(le, s[1..]);
      InsertSorted(le, s[0], Sort(le, s[1..]));
    }
  }

  /** A sorted sequence is a fixed point, so sorting twice is sorting once. */
  lemma {:induction false} SortFixed<T(!new)>(le: (T, T) -> bool, s: seq<T>)
    requires Sorted(le, s)
    ensures Sort(le, s) == s
  {
    if s != [] {
      SortFixed(le, s[1..]);
      assert s == [s[0]] + s[1..];
    }
  }

  lemma SameMembers<T>(a: seq<T>, b: seq<T>)
    requires multiset(a) == multiset(b)
    ensures |a| == |b| && forall x: T :: x in a <==> x in b
  {
    assert |multiset(a)| == |multiset(b)|;
    forall x: T
      ensures x in a <==> x in b
    {
      assert x in a <==> x in multiset(a);
      assert x in b <==> x in multiset(b);
    }
  }

  lemma RemoveAt<T>(s: seq<T>, j: nat)
    requires j < |s|
    ensures multiset(s) == multiset(s[..j] + s[j + 1..]) + multiset{s[j]}
  {
    assert s == s[..j] + [s[j]] + s[j + 1..];
  }

  lemma FirstsAgree<T(!new)>(le: (T, T) -> bool, a: seq<T>, b: seq<T>)
    requires TotalPreorder(le) && Sorted(le, a) && Sorted(le, b) && multiset(a) == multiset(b)
    requires a != []
    ensures |a| == |b| && Equivalent(le, a[0], b[0])
  {
    SameMembers(a, b);
    assert le(a[0], a[0]) && le(b[0], b[0]);
    assert a[0] in b && b[0] in a;
  }

  lemma RestSorted<T>(le: (T, T) -> bool, s: seq<T>, j: nat)
    requires Sorted(le, s) && j < |s|
    ensures Sorted(le, s[..j] + s[j + 1..])
  {
    var rest := s[..j] + s[j + 1..];
    forall i: nat, k: nat | i < k < |rest|
      ensures le(rest[i], rest[k])
    {
      var i' := if i < j then i else i + 1;
      var k' := if k < j then k else k + 1;
      assert rest[i] == s[i'] && rest[k] == s[k'];
    }
  }

  /** When the ends of a stretch of a sorted sequence are tied, so is everything in it. */
  lemma TiesBetween<T(!new)>(le: (T, T) -> bool, b: seq<T>, i: nat, j: nat)
    requires TotalPreorder(le) && Sorted(le, b) && 0 < i <= j < |b|
    ensures Equivalent(le, b[0], b[j]) ==> Equivalent(le, b[i - 1], b[i])
  {
    assert le(b[i - 1], b[i]);
    assert i == j || le(b[i], b[j]);
    assert i == 1 || le(b[0], b[i - 1]);
    assert le(b[0], b[0]) && le(b[j], b[j]);
  }

  lemma RestPermutes<T>(a: seq<T>, b: seq<T>, j: nat)
    requires a != [] && j < |b| && b[j] == a[0] && multiset(a) == multiset(b)
    ensures multiset(a[1..]) == multiset(b[..j] + b[j + 1..])
  {
    RemoveAt(b, j);
    var x := multiset{a[0]};
    assert multiset(a[1..]) == multiset(a) - x by {
      assert a == [a[0]] + a[1..];
    }
    assert multiset(b[..j] + b[j + 1..]) == multiset(b) - x;
  }

  lemma AgreeAt<T(!new)>(le: (T, T) -> bool, a: seq<T>, b: seq<T>, j: nat, i: nat)
    requires TotalPreorder(le) && Sorted(le, b) && 0 < i < |a| == |b| && j < |b|
    requires Equivalent(le, a[1..][i - 1], (b[..j] + b[j + 1..])[i - 1])
    requires Equivalent(le, b[0], b[j])
    ensures Equivalent(le, a[i], b[i])
  {
    if i <= j {
      TiesBetween(le, b, i, j);
    }
  }

  /**
   * Two sorts of the same elements agree position by position up to ties,
   * whatever sort.Slice does with equal elements.
   */
  lemma {:induction false} SortsAgree<T(!new)>(le: (T, T) -> bool, a: seq<T>, b: seq<T>)
    requires TotalPreorder(le) && Sorted(le, a) && Sorted(le, b) && multiset(a) == multiset(b)
    ensures |a| == |b| && forall i: nat | i < |a| :: Equivalent(le, a[i], b[i])
  {
    SameMembers(a, b);
    if a != [] {
      FirstsAgree(le, a, b);
      assert a[0] in b;
      var j: nat :| j < |b| && b[j] == a[0];
      RestPermutes(a, b, j);
      RestSorted(le, b, j);
      SortsAgree(le, a[1..], b[..j] + b[j + 1..]);
      forall i: nat | 0 < i < |a|
        ensures Equivalent(le, a[i], b[i])
      {
        AgreeAt(le, a, b, j, i);
      }
    }
  }

  /** When only equal elements are equivalent, the sort is unique. */
  lemma SortUnique<T(!new)>(le: (T, T) -> bool, a: seq<T>, b: seq<T>)
    requires TotalPreorder(le) && Sorted(le, a) && Sorted(le, b) && multiset(a) == multiset(b)
    requires forall x: T, y: T | x in a && y in a && Equivalent(le, x, y) :: x == y
    ensures a == b
  {
    SameMembers(a, b);
    SortsAgree(le, a, b);
    forall i: nat | i < |a|
      ensures a[i] == b[i]
    {
      assert b[i] in a;
    }
  }

  /** The limit cut every search ends with. */
  function Cut<T>(limit: int, s: seq<T>): seq<T> {
    if limit > 0 && |s| > limit then s[..limit] else s
  }

  /** An element in the cut is ordered before or with every element left out. */
  lemma CutKeepsBest<T(!new)>(le: (T, T) -> bool, limit: int, s: seq<T>, x: T)
    requires TotalPreorder(le) && Sorted(le, s) && x in s && x !in Cut(limit, s)
    ensures forall y: T | y in Cut(limit, s) :: le(y, x)
    ensures |Cut(limit, s)| == limit > 0
  {
    var cut := Cut(limit, s);
    var j: nat :| j < |s| && s[j] == x;
    assert forall k: nat | k < |cut| :: s[k] == cut[k] && s[k] in cut;
    assert |cut| <= j;
  }

  // ---------------------------------------------------------------- ranging over maps

  /** The members of a set in some order, as a range over a Go map gives them. */
  method Enumerate<T(==)>(s: set<T>) returns (r: seq<T>)
    ensures multiset(r) == multiset(s)
  {
    r := [];
    var left := s;
    while left != {}
      invariant left <= s && multiset(r) == multiset(s - left)
      decreases left
    {
      var x :| x in left;
      assert s - (left - {x}) == (s - left) + {x};
      left := left - {x};
      r := r + [x];
    }
    assert s - left == s;
  }

  /** Such an order names no member twice. */
  lemma DistinctPositions<T>(s: seq<T>, members: set<T>, i: nat, j: nat)
    requires multiset(s) == multiset(members) && i < j < |s|
    ensures s[i] != s[j]
  {
    assert s == s[..i] + [s[i]] + s[i + 1..j] + [s[j]] + s[j + 1..];
    assert multiset(members)[s[i]] <= 1;
  }
}
