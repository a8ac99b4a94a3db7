/** Sequence operations the pipeline uses through JavaScript's array and Map
    built-ins: `filter`, summing, insertion-ordered Map keys with counters,
    and the stable `Array.prototype.sort`. */
module Collections {

  /** `s.filter(p)`. */
  function Filter<T>(s: seq<T>, p: T -> bool): (r: seq<T>)
    ensures |r| <= |s|
    ensures forall x :: x in r ==> x in s && p(x)
  {
    if s == [] then []
    else
      var f := Filter(s[..|s| - 1], p);
      if p(s[|s| - 1]) then f + [s[|s| - 1]] else f
  }

  /** `r` is made of the elements of `s` at the strictly increasing
      positions `idx`. */
  ghost predicate IsSelection<T>(r: seq<T>, s: seq<T>, idx: seq<nat>) {
    && |idx| == |r|
    && (forall i :: 0 <= i < |idx| ==> idx[i] < |s| && r[i] == s[idx[i]])
    && (forall i, j :: 0 <= i < j < |idx| ==> idx[i] < idx[j])
  }

  /** The positions of `s` whose element satisfies `p`, in order. */
  ghost function FilterIndices<T>(s: seq<T>, p: T -> bool): seq<nat>
  {
    if s == [] then []
    else
      var f := FilterIndices(s[..|s| - 1], p);
      if p(s[|s| - 1]) then f + [|s| - 1] else f
  }

  lemma {:induction false} FilterIndicesShape<T>(s: seq<T>, p: T -> bool)
    ensures var idx := FilterIndices(s, p);
            && |idx| == |Filter(s, p)|
            && (forall i :: 0 <= i < |idx| ==> idx[i] < |s|)
            && (forall i, j :: 0 <= i < j < |idx| ==> idx[i] < idx[j])
  {
    if s != [] {
      FilterIndicesShape(s[..|s| - 1], p);
    }
  }

  lemma {:induction false} FilterIndicesMember<T>(s: seq<T>, p: T -> bool)
    ensures forall j :: 0 <= j < |s| ==> (j in FilterIndices(s, p) <==> p(s[j]))
  {
    if s != [] {
      var s' := s[..|s| - 1];
      FilterIndicesMember(s', p);
      FilterIndicesShape(s', p);
      var idx' := FilterIndices(s', p);
      assert |s'| !in idx';
      forall j | 0 <= j < |s'|
        ensures j in FilterIndices(s, p) <==> p(s[j])
      {
        assert s'[j] == s[j];
      }
    }
  }

  lemma {:induction false} FilterElements<T>(s: seq<T>, p: T -> bool)
    ensures |FilterIndices(s, p)| == |Filter(s, p)|
    ensures forall i :: 0 <= i < |FilterIndices(s, p)| ==>
      FilterIndices(s, p)[i] < |s| && Filter(s, p)[i] == s[FilterIndices(s, p)[i]]
  {
    FilterIndicesShape(s, p);
    if s != [] {
      var s' := s[..|s| - 1];
      FilterElements(s', p);
      FilterIndicesShape(s', p);
      var f, idx := Filter(s', p), FilterIndices(s', p);
      forall i | 0 <= i < |idx|
        ensures Filter(s, p)[i] == s[FilterIndices(s, p)[i]]
      {
        assert FilterIndices(s, p)[i] == idx[i];
        assert Filter(s, p)[i] == f[i];
        assert s[idx[i]] == s'[idx[i]];
      }
    }
  }

  /** `filter` keeps, in their original order, exactly the elements that
      satisfy the predicate. */
  lemma FilterSelects<T>(s: seq<T>, p: T -> bool)
    ensures IsSelection(Filter(s, p), s, FilterIndices(s, p))
    ensures forall j :: 0 <= j < |s| ==> (j in FilterIndices(s, p) <==> p(s[j]))
  {
    FilterIndicesShape(s, p);
    FilterElements(s, p);
    FilterIndicesMember(s, p);
  }

  /** An element is kept exactly when it is in the input and satisfies the
      predicate. */
  lemma FilterMember<T>(s: seq<T>, p: T -> bool, x: T)
    ensures x in Filter(s, p) <==> x in s && p(x)
  {
    if x in s && p(x) {
      FilterSelects(s, p);
      var j :| 0 <= j < |s| && s[j] == x;
      var idx := FilterIndices(s, p);
      assert j in idx;
      var i :| 0 <= i < |idx| && idx[i] == j;
      assert Filter(s, p)[i] == x;
    }
  }

  /** Every element of the input that satisfies the predicate is kept. */
  lemma FilterComplete<T>(s: seq<T>, p: T -> bool)
    ensures forall x :: x in s && p(x) ==> x in Filter(s, p)
  {
    forall x | x in s && p(x)
      ensures x in Filter(s, p)
    {
      FilterMember(s, p, x);
    }
  }

  /** Filtering with a predicate every element satisfies changes nothing. */
  lemma {:induction false} FilterAll<T>(s: seq<T>, p: T -> bool)
    requires forall i :: 0 <= i < |s| ==> p(s[i])
    ensures Filter(s, p) == s
  {
    if s != [] {
      var s' := s[..|s| - 1];
      assert forall i :: 0 <= i < |s'| ==> s'[i] == s[i];
      FilterAll(s', p);
      assert s == s' + [s[|s| - 1]];
    }
  }

  /** An element that satisfies the predicate and comes first stays first. */
  lemma {:induction false} FilterKeepsHead<T>(s: seq<T>, p: T -> bool)
    requires s != [] && p(s[0])
    ensures Filter(s, p) != [] && Filter(s, p)[0] == s[0]
  {
    if |s| > 1 {
      FilterKeepsHead(s[..|s| - 1], p);
    }
  }

  /** `xs.reduce((a, b) => a + b, 0)`. */
  function Sum(xs: seq<real>): real
  {
    if xs == [] then 0.0 else Sum(xs[..|xs| - 1]) + xs[|xs| - 1]
  }

  lemma {:induction false} SumAppend(a: seq<real>, b: seq<real>)
    ensures Sum(a + b) == Sum(a) + Sum(b)
  {
    if b == [] {
      assert a + b == a;
    } else {
      SumAppend(a, b[..|b| - 1]);
      assert (a + b)[..|a + b| - 1] == a + b[..|b| - 1];
    }
  }

  /** A sum of values in (lo, hi] lies in (n * lo, n * hi]. */
  lemma {:induction false} SumBounds(xs: seq<real>, lo: real, hi: real)
    requires xs != []
    requires forall i :: 0 <= i < |xs| ==> lo < xs[i] <= hi
    ensures |xs| as real * lo < Sum(xs) <= |xs| as real * hi
  {
    if |xs| > 1 {
      SumBounds(xs[..|xs| - 1], lo, hi);
    }
  }

  /** A non-empty sum of positive values is positive. */
  lemma {:induction false} SumPositive(xs: seq<real>)
    requires xs != []
    requires forall i :: 0 <= i < |xs| ==> xs[i] > 0.0
    ensures Sum(xs) > 0.0
  {
    if |xs| > 1 {
      SumPositive(xs[..|xs| - 1]);
    }
  }

  /** The number of occurrences of `k` in `xs`. */
  function Count<K(==)>(xs: seq<K>, k: K): nat
  {
    if xs == [] then 0
    else Count(xs[..|xs| - 1], k) + (if xs[|xs| - 1] == k then 1 else 0)
  }

  ghost predicate NoDuplicates<K>(xs: seq<K>) {
    forall i, j :: 0 <= i < j < |xs| ==> xs[i] != xs[j]
  }

  /** The distinct elements of `xs` in order of first occurrence: the key
      order of a JavaScript Map filled from `xs`. */
  function Distinct<K(==)>(xs: seq<K>): seq<K>
  {
    if xs == [] then []
    else
      var d := Distinct(xs[..|xs| - 1]);
      if xs[|xs| - 1] in d then d else d + [xs[|xs| - 1]]
  }

  lemma {:induction false} DistinctProperties<K>(xs: seq<K>)
    ensures NoDuplicates(Distinct(xs))
    ensures forall k :: k in Distinct(xs) <==> k in xs
  {
    if xs != [] {
      DistinctProperties(xs[..|xs| - 1]);
      assert forall k :: k in xs <==> k in xs[..|xs| - 1] || k == xs[|xs| - 1];
    }
  }

  lemma {:induction false} DistinctLength<K>(xs: seq<K>)
    ensures |Distinct(xs)| <= |xs|
  {
    if xs != [] {
      DistinctLength(xs[..|xs| - 1]);
    }
  }

  lemma {:induction false} CountPositive<K>(xs: seq<K>, k: K)
    ensures Count(xs, k) > 0 <==> k in xs
  {
    if xs != [] {
      CountPositive(xs[..|xs| - 1], k);
      assert forall y :: y in xs <==> y in xs[..|xs| - 1] || y == xs[|xs| - 1];
    }
  }

  lemma {:induction false} CountAtMostOne<K>(xs: seq<K>, k: K)
    requires NoDuplicates(xs)
    ensures Count(xs, k) == if k in xs then 1 else 0
  {
    if xs != [] {
      var xs' := xs[..|xs| - 1];
      CountAtMostOne(xs', k);
      assert forall y :: y in xs <==> y in xs' || y == xs[|xs| - 1];
    }
  }

  /** The sum, over the keys `ks`, of their number of occurrences in `xs`. */
  function SumOfCounts<K(==)>(ks: seq<K>, xs: seq<K>): nat
  {
    if ks == [] then 0 else SumOfCounts(ks[..|ks| - 1], xs) + Count(xs, ks[|ks| - 1])
  }

  lemma {:induction false} SumOfCountsStep<K>(ks: seq<K>, xs: seq<K>, x: K)
    ensures SumOfCounts(ks, xs + [x]) == SumOfCounts(ks, xs) + Count(ks, x)
  {
    if ks != [] {
      SumOfCountsStep(ks[..|ks| - 1], xs, x);
      assert (xs + [x])[..|xs|] == xs;
    }
  }

  /** Counting every element under its first-occurrence key accounts for
      every element exactly once. */
  lemma {:induction false} SumOfCountsIsLength<K>(xs: seq<K>)
    ensures SumOfCounts(Distinct(xs), xs) == |xs|
  {
    if xs != [] {
      var xs', x := xs[..|xs| - 1], xs[|xs| - 1];
      var d := Distinct(xs');
      assert xs == xs' + [x];
      SumOfCountsIsLength(xs');
      SumOfCountsStep(d, xs', x);
      DistinctProperties(xs');
      CountAtMostOne(d, x);
      if x !in d {
        CountPositive(xs', x);
        assert Count(xs, x) == 1;
      }
    }
  }

  /** `key` is non-decreasing along `s`. */
  ghost predicate SortedBy<T>(s: seq<T>, key: T -> real) {
    forall i, j :: 0 <= i < j < |s| ==> key(s[i]) <= key(s[j])
  }

  /** Inserts `x` after every element whose key is at most its own. */
  function Insert<T>(s: seq<T>, x: T, key: T -> real): (r: seq<T>)
    ensures |r| == |s| + 1
  {
    if s == [] || key(s[|s| - 1]) <= key(x) then s + [x]
    else Insert(s[..|s| - 1], x, key) + [s[|s| - 1]]
  }

  /** A stable sort by ascending key: `s.sort((a, b) => key(a) - key(b))`. */
  function SortBy<T>(s: seq<T>, key: T -> real): (r: seq<T>)
    ensures |r| == |s|
  {
    if s == [] then [] else Insert(SortBy(s[..|s| - 1], key), s[|s| - 1], key)
  }

  lemma SortedPrefix<T>(s: seq<T>, key: T -> real)
    requires s != [] && SortedBy(s, key)
    ensures SortedBy(s[..|s| - 1], key)
  {
    var s' := s[..|s| - 1];
    forall i, j | 0 <= i < j < |s'|
      ensures key(s'[i]) <= key(s'[j])
    {
      assert s'[i] == s[i] && s'[j] == s[j];
    }
  }

  lemma {:induction false} InsertPermutes<T>(s: seq<T>, x: T, key: T -> real)
    ensures multiset(Insert(s, x, key)) == multiset(s) + multiset{x}
  {
    if s != [] && key(s[|s| - 1]) > key(x) {
      var s', last := s[..|s| - 1], s[|s| - 1];
      assert s == s' + [last];
      InsertPermutes(s', x, key);
    }
  }

  lemma {:induction false} InsertSorted<T>(s: seq<T>, x: T, key: T -> real)
    requires SortedBy(s, key)
    ensures SortedBy(Insert(s, x, key), key)
  {
    if s == [] {
    } else if key(s[|s| - 1]) <= key(x) {
      var r := s + [x];
      forall i, j | 0 <= i < j < |r|
        ensures key(r[i]) <= key(r[j])
      {
        if j == |s| {
          assert key(s[i]) <= key(s[|s| - 1]);
        }
      }
    } else {
      var s', last := s[..|s| - 1], s[|s| - 1];
      SortedPrefix(s, key);
      InsertSorted(s', x, key);
      InsertPermutes(s', x, key);
      var r' := Insert(s', x, key);
      var r := r' + [last];
      assert Insert(s, x, key) == r;
      forall i, j | 0 <= i < j < |r|
        ensures key(r[i]) <= key(r[j])
      {
        if j == |r'| {
          var y := r'[i];
          assert y in multiset(r');
          if y != x {
            assert y in multiset(s');
            var k :| 0 <= k < |s'| && s'[k] == y;
            assert s[k] == y;
          }
        }
      }
    }
  }

  lemma InsertProperties<T>(s: seq<T>, x: T, key: T -> real)
    requires SortedBy(s, key)
    ensures SortedBy(Insert(s, x, key), key)
    ensures multiset(Insert(s, x, key)) == multiset(s) + multiset{x}
  {
    InsertSorted(s, x, key);
    InsertPermutes(s, x, key);
  }

  /** The sort orders by key and is a permutation of its input. */
  lemma {:induction false} SortProperties<T>(s: seq<T>, key: T -> real)
    ensures SortedBy(SortBy(s, key), key)
    ensures multiset(SortBy(s, key)) == multiset(s)
  {
    if s != [] {
      SortProperties(s[..|s| - 1], key);
      InsertProperties(SortBy(s[..|s| - 1], key), s[|s| - 1], key);
      assert s == s[..|s| - 1] + [s[|s| - 1]];
    }
  }

  /** Sorting what is already sorted changes nothing. */
  lemma {:induction false} SortSorted<T>(s: seq<T>, key: T -> real)
    requires SortedBy(s, key)
    ensures SortBy(s, key) == s
  {
    if s != [] {
      var s', x := s[..|s| - 1], s[|s| - 1];
      assert s == s' + [x];
      if |s| > 1 {
        assert key(s[|s| - 2]) <= key(x);
        assert s'[|s'| - 1] == s[|s| - 2];
      }
      SortedPrefix(s, key);
      SortSorted(s', key);
      assert SortBy(s, key) == Insert(s', x, key);
    }
  }

  /** The elements of a permutation all come from the original. */
  lemma PermutationMember<T>(r: seq<T>, s: seq<T>, x: T)
    requires multiset(r) == multiset(s)
    ensures x in r <==> x in s
  {
    assert x in r <==> x in multiset(r);
    assert x in s <==> x in multiset(s);
  }

  /** A sum over the sorted sequence equals the sum over the original. */
  function SumBy<T>(s: seq<T>, f: T -> int): int
  {
    if s == [] then 0 else SumBy(s[..|s| - 1], f) + f(s[|s| - 1])
  }

  lemma {:induction false} InsertSumBy<T>(s: seq<T>, x: T, key: T -> real, f: T -> int)
    ensures SumBy(Insert(s, x, key), f) == SumBy(s, f) + f(x)
  {
    if s != [] && key(s[|s| - 1]) > key(x) {
      InsertSumBy(s[..|s| - 1], x, key, f);
      var r := Insert(s, x, key);
      assert r[..|r| - 1] == Insert(s[..|s| - 1], x, key);
    } else {
      assert (s + [x])[..|s|] == s;
    }
  }

  lemma {:induction false} SortSumBy<T>(s: seq<T>, key: T -> real, f: T -> int)
    ensures SumBy(SortBy(s, key), f) == SumBy(s, f)
  {
    if s != [] {
      SortSumBy(s[..|s| - 1], key, f);
      InsertSumBy(SortBy(s[..|s| - 1], key), s[|s| - 1], key, f);
    }
  }

  /** `id` tells the elements of `s` apart. */
  ghost predicate DistinctBy<T, K>(s: seq<T>, id: T -> K) {
    forall i, j :: 0 <= i < j < |s| ==> id(s[i]) != id(s[j])
  }

  lemma {:induction false} InsertDistinctBy<T, K>(s: seq<T>, x: T, key: T -> real, id: T -> K)
    requires DistinctBy(s, id)
    requires forall i :: 0 <= i < |s| ==> id(s[i]) != id(x)
    ensures DistinctBy(Insert(s, x, key), id)
  {
    if s != [] && key(s[|s| - 1]) > key(x) {
      var s', last := s[..|s| - 1], s[|s| - 1];
      InsertDistinctBy(s', x, key, id);
      var r' := Insert(s', x, key);
      forall i | 0 <= i < |r'|
        ensures id(r'[i]) != id(last)
      {
        assert r'[i] in r';
        InsertMember(s', x, key, r'[i]);
        if r'[i] != x {
          var k :| 0 <= k < |s'| && s'[k] == r'[i];
          assert s[k] == s'[k];
        }
      }
    }
  }

  lemma {:induction false} InsertMember<T>(s: seq<T>, x: T, key: T -> real, y: T)
    ensures y in Insert(s, x, key) <==> y in s || y == x
  {
    if s != [] && key(s[|s| - 1]) > key(x) {
      InsertMember(s[..|s| - 1], x, key, y);
      assert y in s <==> y in s[..|s| - 1] || y == s[|s| - 1] by {
        assert s == s[..|s| - 1] + [s[|s| - 1]];
      }
    }
  }

  /** Sorting keeps elements distinguishable by `id` distinguishable. */
  lemma {:induction false} SortDistinctBy<T, K>(s: seq<T>, key: T -> real, id: T -> K)
    requires DistinctBy(s, id)
    ensures DistinctBy(SortBy(s, key), id)
  {
    if s != [] {
      var s' := s[..|s| - 1];
      SortDistinctBy(s', key, id);
      SortProperties(s', key);
      var sorted := SortBy(s', key);
      forall i | 0 <= i < |sorted|
        ensures id(sorted[i]) != id(s[|s| - 1])
      {
        assert sorted[i] in sorted;
        PermutationMember(sorted, s', sorted[i]);
        var k :| 0 <= k < |s'| && s'[k] == sorted[i];
        assert s[k] == s'[k];
      }
      InsertDistinctBy(sorted, s[|s| - 1], key, id);
    }
  }
}
