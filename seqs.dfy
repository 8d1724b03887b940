/** Sequence operations in the shape of JavaScript's Array methods (filter, reduce, sort),
    each with the contract the rest of the model relies on. */
module Seqs {

  /** `a` is `b` with some elements left out, the rest in their original order. */
  ghost predicate IsSubsequence<T>(a: seq<T>, b: seq<T>)
    decreases |b|
  {
    if a == [] then true
    else if b == [] then false
    else (a[|a| - 1] == b[|b| - 1] && IsSubsequence(a[..|a| - 1], b[..|b| - 1]))
         || IsSubsequence(a, b[..|b| - 1])
  }

  /** `Array.prototype.filter`: the elements of `s` that satisfy `p`, in order. */
  function Filter<T>(s: seq<T>, p: T -> bool): (r: seq<T>)
    ensures |r| <= |s|
    decreases |s|
  {
    if s == [] then []
    else if p(s[|s| - 1]) then Filter(s[..|s| - 1], p) + [s[|s| - 1]]
    else Filter(s[..|s| - 1], p)
  }

  /** What `Filter` keeps: exactly the elements that satisfy `p`, each as often as it occurs in
      `s`, as a subsequence, and all of `s` when every element does. */
  lemma FilterContents<T>(s: seq<T>, p: T -> bool)
    ensures forall x :: x in Filter(s, p) ==> x in s && p(x)
    ensures forall x :: x in s && p(x) ==> x in Filter(s, p)
    ensures forall x :: multiset(Filter(s, p))[x] == if p(x) then multiset(s)[x] else 0
    ensures IsSubsequence(Filter(s, p), s)
    ensures (forall x :: x in s ==> p(x)) ==> Filter(s, p) == s
  {
    FilterMembers(s, p);
    FilterMultiset(s, p);
    FilterIsSubsequence(s, p);
    if forall x :: x in s ==> p(x) {
      FilterAllPass(s, p);
    }
  }

  lemma {:induction false} FilterMembers<T>(s: seq<T>, p: T -> bool)
    ensures forall x :: x in Filter(s, p) <==> x in s && p(x)
    decreases |s|
  {
    if s != [] {
      var init, last := s[..|s| - 1], s[|s| - 1];
      FilterMembers(init, p);
      InitMembers(s);
    }
  }

  lemma {:induction false} FilterMultiset<T>(s: seq<T>, p: T -> bool)
    ensures forall x :: multiset(Filter(s, p))[x] == if p(x) then multiset(s)[x] else 0
    decreases |s|
  {
    if s != [] {
      var init, last := s[..|s| - 1], s[|s| - 1];
      FilterMultiset(init, p);
      assert s == init + [last];
      assert multiset(s) == multiset(init) + multiset{last};
    }
  }

  lemma {:induction false} FilterIsSubsequence<T>(s: seq<T>, p: T -> bool)
    ensures IsSubsequence(Filter(s, p), s)
    decreases |s|
  {
    if s != [] {
      var init, last := s[..|s| - 1], s[|s| - 1];
      FilterIsSubsequence(init, p);
      if p(last) {
        var r := Filter(init, p) + [last];
        assert r[..|r| - 1] == Filter(init, p);
      }
    }
  }

  lemma {:induction false} FilterAllPass<T>(s: seq<T>, p: T -> bool)
    requires forall x :: x in s ==> p(x)
    ensures Filter(s, p) == s
    decreases |s|
  {
    if s != [] {
      var init, last := s[..|s| - 1], s[|s| - 1];
      assert last in s;
      InitMembers(s);
      FilterAllPass(init, p);
      assert s == init + [last];
    }
  }

  /** Filtering a sequence with one more element at the end. */
  lemma FilterSnoc<T>(s: seq<T>, x: T, p: T -> bool)
    ensures Filter(s + [x], p) == if p(x) then Filter(s, p) + [x] else Filter(s, p)
  {
    assert (s + [x])[..|s + [x]| - 1] == s;
  }

  /** The complement of a predicate. */
  function Not<T>(p: T -> bool): T -> bool
  {
    x => !p(x)
  }

  /** The conjunction of two predicates. */
  function And<T>(p: T -> bool, q: T -> bool): T -> bool
  {
    x => p(x) && q(x)
  }

  /** The disjunction of two predicates. */
  function Or<T>(p: T -> bool, q: T -> bool): T -> bool
  {
    x => p(x) || q(x)
  }

  /** Nothing passes the filter when no element satisfies `p`. */
  lemma {:induction false} FilterNone<T>(s: seq<T>, p: T -> bool)
    requires forall x :: x in s ==> !p(x)
    ensures Filter(s, p) == []
    decreases |s|
  {
    if s != [] {
      assert s[|s| - 1] in s;
      FilterNone(s[..|s| - 1], p);
    }
  }

  /** A filter keeps every element exactly when it keeps as many elements as there are. */
  lemma {:induction false} FilterKeepsAll<T>(s: seq<T>, p: T -> bool)
    ensures |Filter(s, p)| == |s| <==> forall x :: x in s ==> p(x)
    decreases |s|
  {
    FilterMembers(s, p);
    if s != [] {
      var init, last := s[..|s| - 1], s[|s| - 1];
      assert s == init + [last];
      FilterKeepsAll(init, p);
      assert |Filter(init, p)| <= |init|;
    }
  }

  /** Filtering by the disjunction of two predicates that never hold together keeps as many
      elements as the two filters together. */
  lemma {:induction false} FilterDisjointCount<T>(s: seq<T>, p: T -> bool, q: T -> bool)
    requires forall x :: x in s ==> !(p(x) && q(x))
    ensures |Filter(s, Or(p, q))| == |Filter(s, p)| + |Filter(s, q)|
    decreases |s|
  {
    if s != [] {
      assert s[|s| - 1] in s;
      FilterDisjointCount(s[..|s| - 1], p, q);
    }
  }

  /** Filtering by two predicates that agree on `s` gives the same result. */
  lemma {:induction false} FilterCongruence<T>(s: seq<T>, p: T -> bool, q: T -> bool)
    requires forall x :: x in s ==> p(x) == q(x)
    ensures Filter(s, p) == Filter(s, q)
    decreases |s|
  {
    if s != [] {
      FilterCongruence(s[..|s| - 1], p, q);
    }
  }

  /** Filtering the filtered sequence is filtering by the conjunction. */
  lemma {:induction false} FilterOfFilter<T>(s: seq<T>, p: T -> bool, q: T -> bool)
    ensures Filter(Filter(s, p), q) == Filter(s, And(p, q))
    decreases |s|
  {
    if s != [] {
      var init, last := s[..|s| - 1], s[|s| - 1];
      FilterOfFilter(init, p, q);
      if p(last) {
        var fp := Filter(init, p) + [last];
        assert fp[..|fp| - 1] == Filter(init, p);
      }
    }
  }

  /** Filtering distributes over concatenation. */
  lemma {:induction false} FilterAppend<T>(a: seq<T>, b: seq<T>, p: T -> bool)
    ensures Filter(a + b, p) == Filter(a, p) + Filter(b, p)
    decreases |b|
  {
    if b == [] {
      assert a + b == a;
    } else {
      var init, last := b[..|b| - 1], b[|b| - 1];
      assert (a + b)[..|a + b| - 1] == a + init;
      FilterAppend(a, init, p);
    }
  }

  /** Every element of `s` is different from every other one. */
  predicate Distinct<T(==)>(s: seq<T>)
  {
    forall i, j :: 0 <= i < j < |s| ==> s[i] != s[j]
  }

  /** `Array.prototype.indexOf`: the first position of `x` in `s`, or -1 when it is absent. */
  function IndexOf<T(==)>(s: seq<T>, x: T): (r: int)
    ensures -1 <= r < |s|
    ensures r == -1 <==> x !in s
    ensures 0 <= r ==> s[r] == x && x !in s[..r]
    decreases |s|
  {
    if s == [] then -1
    else if s[0] == x then 0
    else
      var k := IndexOf(s[1..], x);
      assert s[1..][..k + 1] == s[1..k + 2] by { assert k + 2 <= |s| || k == -1; }
      if k == -1 then -1 else k + 1
  }

  /** `Array.from(new Set(s))`: the elements of `s` once each, in order of first occurrence. */
  method UniqueInOrder<T(==)>(s: seq<T>) returns (r: seq<T>)
    ensures Distinct(r)
    ensures forall x :: x in r ==> x in s
    ensures forall x :: x in s ==> x in r
  {
    r := [];
    for i := 0 to |s|
      invariant Distinct(r)
      invariant forall x :: x in r ==> x in s[..i]
      invariant forall x :: x in s[..i] ==> x in r
    {
      assert s[..i + 1] == s[..i] + [s[i]];
      if s[i] !in r {
        r := r + [s[i]];
      }
    }
    assert s[..|s|] == s;
  }

  /** The elements of a non-empty sequence are those of its front and its last one. */
  lemma InitMembers<T>(s: seq<T>)
    requires s != []
    ensures forall x :: x in s <==> x in s[..|s| - 1] || x == s[|s| - 1]
  {
    assert s == s[..|s| - 1] + [s[|s| - 1]];
  }

  /** Sequences with the same multiset have the same elements. */
  lemma SameElements<T>(s: seq<T>, t: seq<T>)
    requires multiset(s) == multiset(t)
    ensures forall x :: x in s <==> x in t
  {
    forall x ensures x in s <==> x in t {
      assert x in s <==> x in multiset(s);
      assert x in t <==> x in multiset(t);
    }
  }

  /** Sorting pairwise different elements by a transitive order that ranks any two different
      elements gives a strictly sorted sequence of the same elements. */
  lemma SortDistinct<T(!new)>(s: seq<T>, less: (T, T) -> bool)
    requires Distinct(s) && Transitive(less)
    requires forall a, b :: a in s && b in s && a != b ==> less(a, b) || less(b, a)
    ensures StrictlySorted(InsertionSort(s, less), less)
    ensures forall x :: x in InsertionSort(s, less) <==> x in s
  {
    InsertionSortSorted(s, less);
    SameElements(s, InsertionSort(s, less));
  }

  /** The elements of a strictly sorted sequence are in strictly increasing order under `less`. */
  ghost predicate StrictlySorted<T>(s: seq<T>, less: (T, T) -> bool)
  {
    forall i, j :: 0 <= i < j < |s| ==> less(s[i], s[j])
  }

  ghost predicate Transitive<T(!new)>(less: (T, T) -> bool)
  {
    forall a, b, c :: less(a, b) && less(b, c) ==> less(a, c)
  }

  /** Any two different positions of `s` hold elements that `less` orders one way or the other. */
  ghost predicate PairwiseOrdered<T>(s: seq<T>, less: (T, T) -> bool)
  {
    forall i, j :: 0 <= i < |s| && 0 <= j < |s| && i != j ==> less(s[i], s[j]) || less(s[j], s[i])
  }

  /** Inserts `x` in front of the first element it does not come after. */
  function Insert<T>(x: T, s: seq<T>, less: (T, T) -> bool): (r: seq<T>)
    ensures multiset(r) == multiset(s) + multiset{x}
    decreases |s|
  {
    if s == [] then [x]
    else if less(s[0], x) then
      assert s == [s[0]] + s[1..];
      [s[0]] + Insert(x, s[1..], less)
    else [x] + s
  }

  /** The sequence sorted by insertion; it holds the same elements as `s`. */
  function InsertionSort<T>(s: seq<T>, less: (T, T) -> bool): (r: seq<T>)
    ensures multiset(r) == multiset(s)
    decreases |s|
  {
    if s == [] then []
    else
      assert s == s[..|s| - 1] + [s[|s| - 1]];
      Insert(s[|s| - 1], InsertionSort(s[..|s| - 1], less), less)
  }

  lemma {:induction false} InsertKeepsSorted<T(!new)>(x: T, s: seq<T>, less: (T, T) -> bool)
    requires Transitive(less)
    requires StrictlySorted(s, less)
    requires forall y :: y in s ==> less(x, y) || less(y, x)
    ensures StrictlySorted(Insert(x, s, less), less)
    decreases |s|
  {
    if s != [] && less(s[0], x) {
      var tail := Insert(x, s[1..], less);
      InsertKeepsSorted(x, s[1..], less);
      forall y | y in tail ensures less(s[0], y) {
        assert y in multiset(tail);
        if y != x {
          assert y in s[1..];
        }
      }
    }
  }

  /** Sorting a sequence whose elements are pairwise ordered by a transitive `less`
      gives a strictly sorted sequence (JavaScript's `Array.prototype.sort` with a comparator
      that never reports a tie among these elements). */
  lemma {:induction false} InsertionSortSorted<T(!new)>(s: seq<T>, less: (T, T) -> bool)
    requires Transitive(less)
    requires PairwiseOrdered(s, less)
    ensures StrictlySorted(InsertionSort(s, less), less)
    decreases |s|
  {
    if s != [] {
      var init, last := s[..|s| - 1], s[|s| - 1];
      InsertionSortSorted(init, less);
      var sorted := InsertionSort(init, less);
      forall y | y in sorted ensures less(last, y) || less(y, last) {
        assert y in multiset(sorted);
        assert y in init;
        var k :| 0 <= k < |init| && init[k] == y;
        assert s[k] == y;
      }
      InsertKeepsSorted(last, sorted, less);
    }
  }
}
