/** The random choices of the quiz (src/components/SubQuiz.tsx): drawing a
    question, sampling distractors without replacement and the Fisher-Yates
    shuffle of the answer options. Every `Math.random()` result is an
    explicit real number in [0, 1), so each property holds for every
    possible sequence of random results. */
module QuizRandom {
  import opened Seqs

  /** A possible result of `Math.random()`. */
  predicate IsRandom(r: real) {
    0.0 <= r < 1.0
  }

  predicate AllRandom(rs: seq<real>) {
    forall k :: 0 <= k < |rs| ==> IsRandom(rs[k])
  }

  /** `Math.floor(r * n)`: an index into a non-empty array of length `n`. */
  function RandomIndex(r: real, n: nat): (i: nat)
    requires IsRandom(r) && n > 0
    ensures i < n
  {
    ScaledBelow(r, n as real);
    (r * n as real).Floor
  }

  /** A random number times a positive length is below that length. */
  lemma ScaledBelow(r: real, m: real)
    requires IsRandom(r) && m > 0.0
    ensures 0.0 <= r * m < m
  {
    assert (1.0 - r) * m > 0.0;
    assert m - r * m == (1.0 - r) * m;
  }

  /** `s.splice(i, 1)` on a copy: the element at `i` removed. */
  function RemoveAt<T>(s: seq<T>, i: nat): (r: seq<T>)
    requires i < |s|
    ensures |r| == |s| - 1
  {
    s[..i] + s[i + 1..]
  }

  lemma RemoveAtMultiset<T>(s: seq<T>, i: nat)
    requires i < |s|
    ensures multiset(RemoveAt(s, i)) + multiset{s[i]} == multiset(s)
  {
    assert s == s[..i] + [s[i]] + s[i + 1..];
  }

  /** The splice loop continued from a partial result `chosen`: each
      random number draws one element from the elements of `pool` not
      drawn before, until the numbers or the pool run out. */
  function SampleInto<T>(chosen: seq<T>, pool: seq<T>, rands: seq<real>): (r: seq<T>)
    requires AllRandom(rands)
    ensures |r| == |chosen| + Min(|rands|, |pool|)
    decreases |rands|
  {
    if |rands| == 0 || |pool| == 0 then chosen
    else
      var i := RandomIndex(rands[0], |pool|);
      SampleInto(chosen + [pool[i]], RemoveAt(pool, i), rands[1..])
  }

  /** What the splice loop collects from nothing: as many elements as there
      are random numbers, or the whole pool when it is smaller. */
  function Sample<T>(pool: seq<T>, rands: seq<real>): (r: seq<T>)
    requires AllRandom(rands)
    ensures |r| == Min(|rands|, |pool|)
  {
    SampleInto([], pool, rands)
  }

  /** Each draw moves one element from the pool to the result, so the
      result holds no element more often than `chosen` and `pool` together. */
  lemma {:induction false} SampleIntoFromPool<T>(chosen: seq<T>, pool: seq<T>, rands: seq<real>)
    requires AllRandom(rands)
    ensures multiset(SampleInto(chosen, pool, rands)) <= multiset(chosen) + multiset(pool)
    decreases |rands|
  {
    if |rands| > 0 && |pool| > 0 {
      var i := RandomIndex(rands[0], |pool|);
      SampleIntoFromPool(chosen + [pool[i]], RemoveAt(pool, i), rands[1..]);
      RemoveAtMultiset(pool, i);
    }
  }

  /** Drawing without replacement takes no element more often than the
      pool holds it. */
  lemma SampleFromPool<T>(pool: seq<T>, rands: seq<real>)
    requires AllRandom(rands)
    ensures multiset(Sample(pool, rands)) <= multiset(pool)
  {
    SampleIntoFromPool([], pool, rands);
  }

  /** The splice loop of the option generators: with three random numbers,
      draws up to three elements of `candidates` without replacement. */
  method SampleThree<T>(candidates: seq<T>, rands: seq<real>) returns (chosen: seq<T>)
    requires AllRandom(rands) && |rands| == 3
    ensures chosen == Sample(candidates, rands)
  {
    var others := candidates;
    var draws := rands;
    chosen := [];
    while |draws| > 0 && |others| > 0
      invariant AllRandom(draws)
      invariant SampleInto(chosen, others, draws) == Sample(candidates, rands)
    {
      var k := RandomIndex(draws[0], |others|);
      chosen := chosen + [others[k]];
      others := RemoveAt(others, k);
      draws := draws[1..];
    }
  }

  /** Exchanges the elements at `i` and `j`. */
  function Swap<T>(s: seq<T>, i: nat, j: nat): (r: seq<T>)
    requires i < |s| && j < |s|
    ensures |r| == |s|
  {
    s[i := s[j]][j := s[i]]
  }

  lemma SwapMultiset<T>(s: seq<T>, i: nat, j: nat)
    requires i < |s| && j < |s|
    ensures multiset(Swap(s, i, j)) == multiset(s)
  {
  }

  /** The remaining steps of the shuffle, from position `i` down to 1. The
      step at position `i` is the `(|s| - 1 - i)`-th draw and exchanges
      position `i` with a position in `[0, i]`. */
  function ShuffleDown<T>(s: seq<T>, rands: seq<real>, i: nat): (r: seq<T>)
    requires i < |s| && AllRandom(rands) && |rands| + 1 >= |s|
    ensures |r| == |s|
    decreases i
  {
    if i == 0 then s
    else ShuffleDown(Swap(s, i, RandomIndex(rands[|s| - 1 - i], i + 1)), rands, i - 1)
  }

  lemma {:induction false} ShuffleDownPermutes<T>(s: seq<T>, rands: seq<real>, i: nat)
    requires i < |s| && AllRandom(rands) && |rands| + 1 >= |s|
    ensures multiset(ShuffleDown(s, rands, i)) == multiset(s)
    decreases i
  {
    if i > 0 {
      var t := Swap(s, i, RandomIndex(rands[|s| - 1 - i], i + 1));
      SwapMultiset(s, i, RandomIndex(rands[|s| - 1 - i], i + 1));
      ShuffleDownPermutes(t, rands, i - 1);
    }
  }

  /** The result of the Fisher-Yates shuffle for the given draws. */
  function Shuffled<T>(s: seq<T>, rands: seq<real>): (r: seq<T>)
    requires AllRandom(rands) && |rands| + 1 >= |s|
    ensures |r| == |s|
  {
    if |s| == 0 then s else ShuffleDown(s, rands, |s| - 1)
  }

  /** Whatever the draws, the shuffle is a permutation. */
  lemma ShuffledPermutes<T>(s: seq<T>, rands: seq<real>)
    requires AllRandom(rands) && |rands| + 1 >= |s|
    ensures multiset(Shuffled(s, rands)) == multiset(s)
  {
    if |s| > 0 {
      ShuffleDownPermutes(s, rands, |s| - 1);
    }
  }

  /** One step of the shuffle: exchanging position `i` with the drawn
      position leaves the steps below `i` to do. */
  lemma ShuffleStep<T>(before: seq<T>, after: seq<T>, rands: seq<real>, i: nat)
    requires 0 < i < |before| && AllRandom(rands) && |rands| + 1 >= |before|
    requires var j := RandomIndex(rands[|before| - 1 - i], i + 1);
             |after| == |before| && after[i] == before[j] && after[j] == before[i]
             && forall k :: 0 <= k < |after| && k != i && k != j ==> after[k] == before[k]
    ensures ShuffleDown(after, rands, i - 1) == ShuffleDown(before, rands, i)
  {
    var j := RandomIndex(rands[|before| - 1 - i], i + 1);
    assert after == Swap(before, i, j);
  }

  /** `shuffleArray`: shuffles a copy of the input in place; the input is
      a value and stays as it was. */
  method ShuffleArray<T>(input: seq<T>, rands: seq<real>) returns (r: seq<T>)
    requires AllRandom(rands) && |rands| + 1 >= |input|
    ensures r == Shuffled(input, rands)
  {
    if |input| == 0 {
      return input;
    }
    var a := new T[|input|](k requires 0 <= k < |input| => input[k]);
    var i := |input| - 1;
    assert ShuffleDown(a[..], rands, i) == Shuffled(input, rands) by {
      assert a[..] == input;
    }
    while i > 0
      invariant 0 <= i < |input| == a.Length
      invariant ShuffleDown(a[..], rands, i) == Shuffled(input, rands)
    {
      var j := RandomIndex(rands[|input| - 1 - i], i + 1);
      ghost var before := a[..];
      a[i], a[j] := a[j], a[i];
      ShuffleStep(before, a[..], rands, i);
      i := i - 1;
    }
    r := a[..];
  }
}
