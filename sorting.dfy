/**
 * Python's `list.sort(key=...)` and `sorted(..., reverse=...)`: a stable sort.
 * The order is given as a total preorder `le` on the elements (`le(a, b)`
 * when `a` may come before `b`); elements that are equivalent under it keep
 * their original relative order.
 */
module Sorting {

  ghost predicate TotalPreorder<T(!new)>(le: (T, T) -> bool) {
    && (forall a, b :: le(a, b) || le(b, a))
    && (forall a, b, c :: le(a, b) && le(b, c) ==> le(a, c))
  }

  predicate Equiv<T>(le: (T, T) -> bool, a: T, b: T) {
    le(a, b) && le(b, a)
  }

  ghost predicate SortedBy<T>(s: seq<T>, le: (T, T) -> bool) {
    forall i, j :: 0 <= i < j < |s| ==> le(s[i], s[j])
  }

  /** Places `x` before the first element it may precede. */
  function Insert<T>(x: T, s: seq<T>, le: (T, T) -> bool): (r: seq<T>)
    ensures |r| == |s| + 1
    ensures multiset(r) == multiset(s) + multiset{x}
  {
    if s == [] || le(x, s[0]) then [x] + s
    else
      assert s == [s[0]] + s[1..];
      [s[0]] + Insert(x, s[1..], le)
  }

  /** Stable insertion sort: the result is a permutation of `s`. */
  function SortBy<T>(s: seq<T>, le: (T, T) -> bool): (r: seq<T>)
    ensures |r| == |s|
    ensures multiset(r) == multiset(s)
  {
    if s == [] then []
    else
      assert s == [s[0]] + s[1..];
      Insert(s[0], SortBy(s[1..], le), le)
  }

  lemma {:induction false} InsertSorted<T(!new)>(x: T, s: seq<T>, le: (T, T) -> bool)
    requires TotalPreorder(le) && SortedBy(s, le)
    ensures SortedBy(Insert(x, s, le), le)
  {
    if s != [] && !le(x, s[0]) {
      var tail := s[1..];
      var r := Insert(x, tail, le);
      InsertSorted(x, tail, le);
      forall k | 0 <= k < |r|
        ensures le(s[0], r[k])
      {
        assert r[k] in multiset(r);
        if r[k] != x {
          assert r[k] in multiset(tail);
          var j :| 0 <= j < |tail| && tail[j] == r[k];
          assert s[j + 1] == r[k];
        }
      }
      assert Insert(x, s, le) == [s[0]] + r;
    }
  }

  /** The result of `SortBy` is ordered by `le`. */
  lemma {:induction false} SortBySorted<T(!new)>(s: seq<T>, le: (T, T) -> bool)
    requires TotalPreorder(le)
    ensures SortedBy(SortBy(s, le), le)
  {
    if s != [] {
      SortBySorted(s[1..], le);
      InsertSorted(s[0], SortBy(s[1..], le), le);
    }
  }

  /** The elements of `s` equivalent to `p`, in their order in `s`. */
  function Keep<T>(s: seq<T>, le: (T, T) -> bool, p: T): seq<T>
  {
    if s == [] then []
    else (if Equiv(le, p, s[0]) then [s[0]] else []) + Keep(s[1..], le, p)
  }

  lemma {:induction false} KeepAppend<T>(a: seq<T>, b: seq<T>, le: (T, T) -> bool, p: T)
    ensures Keep(a + b, le, p) == Keep(a, le, p) + Keep(b, le, p)
  {
    if a != [] {
      KeepAppend(a[1..], b, le, p);
      assert (a + b)[1..] == a[1..] + b;
    } else {
      assert a + b == b;
    }
  }

  lemma {:induction false} KeepPrefix<T>(s: seq<T>, n: nat, le: (T, T) -> bool, p: T)
    requires n <= |s|
    ensures Keep(s[..n], le, p) <= Keep(s, le, p)
  {
    KeepAppend(s[..n], s[n..], le, p);
    assert s == s[..n] + s[n..];
  }

  /** Inserting `x` keeps it ahead of every element equivalent to it. */
  lemma {:induction false} InsertKeep<T(!new)>(x: T, s: seq<T>, le: (T, T) -> bool, p: T)
    requires TotalPreorder(le)
    ensures Keep(Insert(x, s, le), le, p) == Keep([x] + s, le, p)
  {
    if s != [] && !le(x, s[0]) {
      InsertKeep(x, s[1..], le, p);
      var s0 := s[0];
      assert !(Equiv(le, p, x) && Equiv(le, p, s0));
      assert ([x] + s)[1..] == s;
      assert ([x] + s[1..])[1..] == s[1..];
      assert ([s[0]] + Insert(x, s[1..], le))[1..] == Insert(x, s[1..], le);
    }
  }

  /** Stability: equivalent elements leave `SortBy` in the order they came in. */
  lemma {:induction false} SortByStable<T(!new)>(s: seq<T>, le: (T, T) -> bool, p: T)
    requires TotalPreorder(le)
    ensures Keep(SortBy(s, le), le, p) == Keep(s, le, p)
  {
    if s != [] {
      SortByStable(s[1..], le, p);
      InsertKeep(s[0], SortBy(s[1..], le), le, p);
      assert ([s[0]] + SortBy(s[1..], le))[1..] == SortBy(s[1..], le);
    }
  }

  lemma {:induction false} KeepFirst<T>(s: seq<T>, le: (T, T) -> bool, p: T)
    requires Keep(s, le, p) != []
    ensures exists i :: 0 <= i < |s| && s[i] == Keep(s, le, p)[0]
                        && forall j :: 0 <= j < i ==> !Equiv(le, p, s[j])
  {
    if !Equiv(le, p, s[0]) {
      KeepFirst(s[1..], le, p);
      var i :| 0 <= i < |s[1..]| && s[1..][i] == Keep(s[1..], le, p)[0]
                && forall j :: 0 <= j < i ==> !Equiv(le, p, s[1..][j]);
      assert s[i + 1] == Keep(s, le, p)[0];
      assert forall j :: 1 <= j < i + 1 ==> s[j] == s[1..][j - 1];
    } else {
      assert s[0] == Keep(s, le, p)[0];
    }
  }

  /**
   * The first element after sorting is a minimum of `s`, and it is the
   * earliest minimum: every element before it in `s` is strictly greater.
   */
  lemma SortByHeadIsFirstMinimum<T(!new)>(s: seq<T>, le: (T, T) -> bool)
    requires TotalPreorder(le) && s != []
    ensures forall y :: y in s ==> le(SortBy(s, le)[0], y)
    ensures exists i :: 0 <= i < |s| && s[i] == SortBy(s, le)[0]
                        && forall j :: 0 <= j < i ==> !le(s[j], s[i])
  {
    var r := SortBy(s, le);
    var e := r[0];
    SortBySorted(s, le);
    forall y | y in s
      ensures le(e, y)
    {
      assert y in multiset(r);
      var k :| 0 <= k < |r| && r[k] == y;
      if k == 0 {
        assert le(e, e) || le(e, e);
      }
    }
    assert Keep(r, le, e) == [e] + Keep(r[1..], le, e) by {
      assert le(e, e) || le(e, e);
    }
    SortByStable(s, le, e);
    KeepFirst(s, le, e);
    var i :| 0 <= i < |s| && s[i] == Keep(s, le, e)[0]
              && forall j :: 0 <= j < i ==> !Equiv(le, e, s[j]);
    forall j | 0 <= j < i
      ensures !le(s[j], s[i])
    {
      assert s[j] in s;
    }
  }
}
