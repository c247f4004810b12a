/** Sequence helpers shared by the models: `Array.prototype.filter`, element
    distinctness and the relation between a list and the set of its elements. */
module Seqs {

  function Min(a: int, b: int): int {
    if a <= b then a else b
  }

  /** `r` can be obtained from `s` by deleting elements: order is kept and
      nothing is added. */
  ghost predicate IsSubsequence<T>(r: seq<T>, s: seq<T>)
    decreases |s|
  {
    r == [] || (s != [] && ((r[0] == s[0] && IsSubsequence(r[1..], s[1..])) || IsSubsequence(r, s[1..])))
  }

  /** `s.filter(p)`: the elements of `s` that satisfy `p`, in their order. */
  function Filter<T>(s: seq<T>, p: T -> bool): (r: seq<T>)
    ensures |r| <= |s|
  {
    if s == [] then [] else (if p(s[0]) then [s[0]] else []) + Filter(s[1..], p)
  }

  /** Filtering keeps exactly the elements that pass the test, in order,
      each at most as often as in the input. */
  lemma {:induction false} FilterSpec<T(!new)>(s: seq<T>, p: T -> bool)
    ensures forall x :: x in Filter(s, p) <==> x in s && p(x)
    ensures multiset(Filter(s, p)) <= multiset(s)
    ensures IsSubsequence(Filter(s, p), s)
  {
    if s != [] {
      var rest := Filter(s[1..], p);
      FilterSpec(s[1..], p);
      assert s == [s[0]] + s[1..];
      if p(s[0]) {
        assert ([s[0]] + rest)[0] == s[0] && ([s[0]] + rest)[1..] == rest;
      } else {
        assert Filter(s, p) == rest;
      }
    }
  }

  /** The membership part of `FilterSpec`, for callers that need no more. */
  lemma FilterMembers<T(!new)>(s: seq<T>, p: T -> bool)
    ensures forall x :: x in Filter(s, p) <==> x in s && p(x)
  {
    FilterSpec(s, p);
  }

  lemma {:induction false} FilterAppend<T(!new)>(a: seq<T>, b: seq<T>, p: T -> bool)
    ensures Filter(a + b, p) == Filter(a, p) + Filter(b, p)
  {
    if a == [] {
      assert a + b == b;
    } else {
      var h := if p(a[0]) then [a[0]] else [];
      assert (a + b)[0] == a[0] && (a + b)[1..] == a[1..] + b;
      assert Filter(a + b, p) == h + Filter(a[1..] + b, p);
      FilterAppend(a[1..], b, p);
      assert h + (Filter(a[1..], p) + Filter(b, p)) == (h + Filter(a[1..], p)) + Filter(b, p);
    }
  }

  /** Filtering a list extended by one element. */
  lemma FilterSnoc<T(!new)>(s: seq<T>, x: T, p: T -> bool)
    ensures Filter(s + [x], p) == Filter(s, p) + (if p(x) then [x] else [])
  {
    FilterAppend(s, [x], p);
    assert [x][1..] == [];
  }

  lemma {:induction false} FilterAll<T(!new)>(s: seq<T>, p: T -> bool)
    requires forall x :: x in s ==> p(x)
    ensures Filter(s, p) == s
  {
    if s != [] {
      FilterAll(s[1..], p);
    }
  }

  lemma {:induction false} FilterNone<T(!new)>(s: seq<T>, p: T -> bool)
    requires forall x :: x in s ==> !p(x)
    ensures Filter(s, p) == []
  {
    if s != [] {
      FilterNone(s[1..], p);
    }
  }

  /** No element occurs twice. */
  predicate NoDuplicates<T(==)>(s: seq<T>) {
    forall i, j :: 0 <= i < j < |s| ==> s[i] != s[j]
  }

  /** Two duplicate-free lists with no element in common concatenate to a
      duplicate-free list. */
  lemma NoDuplicatesAppend<T>(a: seq<T>, b: seq<T>)
    requires NoDuplicates(a) && NoDuplicates(b)
    requires forall x :: x in a ==> x !in b
    ensures NoDuplicates(a + b)
  {
    forall i, j | 0 <= i < j < |a + b| ensures (a + b)[i] != (a + b)[j] {
      if j < |a| {
        assert (a + b)[i] == a[i] && (a + b)[j] == a[j];
      } else if i >= |a| {
        assert (a + b)[i] == b[i - |a|] && (a + b)[j] == b[j - |a|];
      } else {
        assert (a + b)[i] == a[i] && (a + b)[j] == b[j - |a|];
        assert a[i] in a && b[j - |a|] in b;
      }
    }
  }

  /** The test "is not `x`". */
  function Unequal<T(==)>(x: T): T -> bool {
    y => y != x
  }

  /** Filtering out a value a list does not hold leaves the list as it is. */
  lemma FilterOutAbsent<T(!new)>(s: seq<T>, x: T)
    requires x !in s
    ensures Filter(s, Unequal(x)) == s
  {
    FilterAll(s, Unequal(x));
  }

  /** Filtering out `x` from `a + [x] + b` when neither part holds `x`. */
  lemma FilterOutMiddle<T(!new)>(a: seq<T>, x: T, b: seq<T>)
    requires x !in a && x !in b
    ensures Filter(a + [x] + b, Unequal(x)) == a + b
  {
    calc {
      Filter(a + [x] + b, Unequal(x));
    == { FilterAppend(a + [x], b, Unequal(x)); }
      Filter(a + [x], Unequal(x)) + Filter(b, Unequal(x));
    == { FilterSnoc(a, x, Unequal(x)); }
      Filter(a, Unequal(x)) + Filter(b, Unequal(x));
    == { FilterOutAbsent(a, x); FilterOutAbsent(b, x); }
      a + b;
    }
  }

  /** A list is its part before `i`, its element at `i` and its part after. */
  lemma SplitAt<T>(s: seq<T>, i: nat)
    requires i < |s|
    ensures s == s[..i] + [s[i]] + s[i + 1..]
  {
  }

  /** In a list without repeats, the element at `i` occurs neither before nor
      after `i`. */
  lemma OnlyAt<T>(s: seq<T>, i: nat)
    requires NoDuplicates(s) && i < |s|
    ensures s[i] !in s[..i] && s[i] !in s[i + 1..]
  {
    var a, b := s[..i], s[i + 1..];
    forall j | 0 <= j < |a| ensures a[j] != s[i] {
      assert a[j] == s[j];
    }
    forall j | 0 <= j < |b| ensures b[j] != s[i] {
      assert b[j] == s[i + 1 + j];
    }
  }

  /** Deleting an element of a list without repeats is filtering out its
      value: the others keep their order. */
  lemma DeleteIsFilter<T(!new)>(s: seq<T>, i: nat)
    requires NoDuplicates(s) && i < |s|
    ensures s[..i] + s[i + 1..] == Filter(s, Unequal(s[i]))
  {
    OnlyAt(s, i);
    assert Filter(s, Unequal(s[i])) == Filter(s[..i] + [s[i]] + s[i + 1..], Unequal(s[i])) by {
      SplitAt(s, i);
    }
    FilterOutMiddle(s[..i], s[i], s[i + 1..]);
  }

  /** Filtering out `x` drops every occurrence of `x` and keeps every other
      value as often as it was. */
  lemma {:induction false} FilterOutCounts<T(!new)>(s: seq<T>, x: T)
    ensures multiset(Filter(s, Unequal(x))) == multiset(s)[x := 0]
    ensures |Filter(s, Unequal(x))| + multiset(s)[x] == |s|
  {
    if s != [] {
      FilterOutCounts(s[1..], x);
      assert multiset(s) == multiset([s[0]]) + multiset(s[1..]) by {
        assert s == [s[0]] + s[1..];
      }
    }
  }

  /** Filtering a list without repeated elements repeats none. */
  lemma {:induction false} FilterKeepsDistinct<T(!new)>(s: seq<T>, p: T -> bool)
    requires NoDuplicates(s)
    ensures NoDuplicates(Filter(s, p))
  {
    if s != [] {
      var t := s[1..];
      assert NoDuplicates(t) by {
        forall i, j | 0 <= i < j < |t| ensures t[i] != t[j] {
          assert t[i] == s[i + 1] && t[j] == s[j + 1];
        }
      }
      FilterKeepsDistinct(t, p);
      FilterMembers(t, p);
      assert s[0] !in t by {
        forall j | 0 <= j < |t| ensures t[j] != s[0] {
          assert t[j] == s[j + 1];
        }
      }
      var h := if p(s[0]) then [s[0]] else [];
      NoDuplicatesAppend(h, Filter(t, p));
    }
  }

  function Elements<T>(s: seq<T>): set<T> {
    set x | x in s
  }

  /** A list has as many distinct elements as entries exactly when no entry
      is repeated; otherwise it has fewer. */
  lemma {:induction false} DistinctCount<T>(s: seq<T>)
    ensures |Elements(s)| <= |s|
    ensures |Elements(s)| == |s| <==> NoDuplicates(s)
  {
    if s == [] {
      assert Elements(s) == {};
    } else {
      var t := s[1..];
      DistinctCount(t);
      assert Elements(s) == {s[0]} + Elements(t);
      if s[0] in t {
        assert Elements(s) == Elements(t);
        var j :| 0 <= j < |t| && t[j] == s[0];
        assert s[0] == s[j + 1];
        assert !NoDuplicates(s);
      } else {
        assert |Elements(s)| == 1 + |Elements(t)|;
        if NoDuplicates(t) {
          forall i, j | 0 <= i < j < |s| ensures s[i] != s[j] {
            if i == 0 {
              assert s[j] == t[j - 1];
            } else {
              assert s[i] == t[i - 1] && s[j] == t[j - 1];
            }
          }
        } else {
          var i, j :| 0 <= i < j < |t| && t[i] == t[j];
          assert s[i + 1] == s[j + 1];
        }
      }
    }
  }

  /** How many times `x` occurs in `s`. */
  function Occurrences<T(==)>(s: seq<T>, x: T): nat {
    multiset(s)[x]
  }
}
