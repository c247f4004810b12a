/** Sorting by a comparison, as `Array.prototype.sort` with a comparator and
    Python's `sorted` do. The comparison is any total preorder; the result is
    ordered by it and is a permutation of the input. */
module Sorting {
  import opened Seqs
  import opened Strings

  ghost predicate TotalPreorder<T(!new)>(leq: (T, T) -> bool) {
    (forall a, b :: leq(a, b) || leq(b, a))
    && (forall a, b, c :: leq(a, b) && leq(b, c) ==> leq(a, c))
  }

  ghost predicate SortedBy<T>(s: seq<T>, leq: (T, T) -> bool) {
    forall i, j :: 0 <= i < j < |s| ==> leq(s[i], s[j])
  }

  /** Places `x` in front of the first element it does not follow. */
  function Insert<T(!new)>(x: T, s: seq<T>, leq: (T, T) -> bool): (r: seq<T>)
    requires TotalPreorder(leq) && SortedBy(s, leq)
    ensures SortedBy(r, leq)
    ensures multiset(r) == multiset(s) + multiset{x}
  {
    if s == [] || leq(x, s[0]) then
      InsertInFront(x, s, leq);
      [x] + s
    else
      var rest := Insert(x, s[1..], leq);
      InsertBehind(x, s, rest, leq);
      [s[0]] + rest
  }

  lemma InsertInFront<T(!new)>(x: T, s: seq<T>, leq: (T, T) -> bool)
    requires TotalPreorder(leq) && SortedBy(s, leq) && (s == [] || leq(x, s[0]))
    ensures SortedBy([x] + s, leq) && multiset([x] + s) == multiset(s) + multiset{x}
  {
    if s != [] {
      HeadPrecedesRest(s, leq);
      assert forall y :: y in s ==> y == s[0] || y in s[1..] by {
        assert s == [s[0]] + s[1..];
      }
    }
    SortedCons(x, s, leq);
  }

  lemma InsertBehind<T(!new)>(x: T, s: seq<T>, rest: seq<T>, leq: (T, T) -> bool)
    requires TotalPreorder(leq) && SortedBy(s, leq) && s != [] && !leq(x, s[0])
    requires SortedBy(rest, leq) && multiset(rest) == multiset(s[1..]) + multiset{x}
    ensures SortedBy([s[0]] + rest, leq) && multiset([s[0]] + rest) == multiset(s) + multiset{x}
  {
    HeadPrecedesRest(s, leq);
    forall y | y in rest ensures leq(s[0], y) {
      assert y in multiset(rest);
      if y != x {
        assert y in multiset(s[1..]);
      }
    }
    SortedCons(s[0], rest, leq);
    assert multiset(s) == multiset{s[0]} + multiset(s[1..]) by {
      assert s == [s[0]] + s[1..];
    }
  }

  /** The input put in order by insertion. */
  function SortBy<T(!new)>(s: seq<T>, leq: (T, T) -> bool): (r: seq<T>)
    requires TotalPreorder(leq)
    ensures SortedBy(r, leq)
    ensures multiset(r) == multiset(s)
  {
    if s == [] then []
    else
      assert s == [s[0]] + s[1..];
      Insert(s[0], SortBy(s[1..], leq), leq)
  }

  /** Code-point order on strings is a total preorder. */
  lemma CodePointOrderIsTotalPreorder()
    ensures TotalPreorder(LexLeq)
  {
    forall a, b ensures LexLeq(a, b) || LexLeq(b, a) {
      LexLeqTotal(a, b);
    }
    forall a, b, c | LexLeq(a, b) && LexLeq(b, c) ensures LexLeq(a, c) {
      LexLeqTransitive(a, b, c);
    }
  }

  /** Sorting a list without repeated elements repeats none. */
  lemma SortKeepsDistinct<T(!new)>(s: seq<T>, leq: (T, T) -> bool)
    requires TotalPreorder(leq) && NoDuplicates(s)
    ensures NoDuplicates(SortBy(s, leq))
  {
    var r := SortBy(s, leq);
    assert Elements(r) == Elements(s) by {
      assert forall x :: x in r <==> x in multiset(r);
      assert forall x :: x in s <==> x in multiset(s);
    }
    DistinctCount(s);
    DistinctCount(r);
    assert |multiset(r)| == |multiset(s)|;
  }

  /** In a sorted list the first element precedes all the others. */
  lemma HeadPrecedesRest<T>(s: seq<T>, leq: (T, T) -> bool)
    requires SortedBy(s, leq) && s != []
    ensures forall y :: y in s[1..] ==> leq(s[0], y)
  {
    forall y | y in s[1..] ensures leq(s[0], y) {
      var k :| 0 <= k < |s[1..]| && s[1..][k] == y;
      assert s[k + 1] == y;
    }
  }

  /** An element that precedes every element of a sorted list may be put in
      front of it. */
  lemma SortedCons<T>(x: T, s: seq<T>, leq: (T, T) -> bool)
    requires SortedBy(s, leq) && forall y :: y in s ==> leq(x, y)
    ensures SortedBy([x] + s, leq)
  {
    var r := [x] + s;
    forall i, j | 0 <= i < j < |r| ensures leq(r[i], r[j]) {
      assert r[j] == s[j - 1];
      if i > 0 {
        assert r[i] == s[i - 1];
      }
    }
  }

  /** Filtering a sorted list leaves it sorted. */
  lemma {:induction false} FilterKeepsSorted<T(!new)>(s: seq<T>, p: T -> bool, leq: (T, T) -> bool)
    requires SortedBy(s, leq)
    ensures SortedBy(Filter(s, p), leq)
  {
    if s != [] {
      var rest := Filter(s[1..], p);
      FilterKeepsSorted(s[1..], p, leq);
      if p(s[0]) {
        assert forall y :: y in rest ==> leq(s[0], y) by {
          FilterMembers(s[1..], p);
          HeadPrecedesRest(s, leq);
        }
        SortedCons(s[0], rest, leq);
        assert Filter(s, p) == [s[0]] + rest;
      } else {
        assert Filter(s, p) == [] + rest;
        assert [] + rest == rest;
      }
    }
  }
}
