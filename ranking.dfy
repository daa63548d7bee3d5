/** Ranking over one output row of the model: `np.argmax` (top-1), the
    ascending `np.argsort` from which the top three are taken, and the
    filter that keeps only indices inside the class catalog. */
module Ranking {

  /** Number of ranked predictions returned beside the top one. */
  const TopK: nat := 3

  /** `np.argmax`: the first index holding the largest score. */
  function ArgMax(s: seq<real>): (r: nat)
    requires |s| > 0
    ensures r < |s|
    ensures forall j :: 0 <= j < |s| ==> s[j] <= s[r]
    ensures forall j :: 0 <= j < r ==> s[j] < s[r]
    decreases |s|
  {
    if |s| == 1 then 0
    else
      var k := ArgMax(s[..|s| - 1]);
      if s[|s| - 1] > s[k] then |s| - 1 else k
  }

  /** The indices `xs` are valid for `s` and their scores never increase along `xs`. */
  predicate NonIncreasing(s: seq<real>, xs: seq<nat>)
  {
    (forall i :: 0 <= i < |xs| ==> xs[i] < |s|) &&
    forall i, j :: 0 <= i < j < |xs| ==> s[xs[i]] >= s[xs[j]]
  }

  /** `order` is a result `np.argsort(s)` may return: every index of `s`
      exactly once, in non-decreasing order of score. Which of several tied
      indices comes first is left open, as numpy's default sort is not stable. */
  predicate IsArgsort(order: seq<nat>, s: seq<real>)
  {
    |order| == |s| &&
    (forall i :: 0 <= i < |order| ==> order[i] < |s|) &&
    (forall k :: 0 <= k < |s| ==> k in order) &&
    (forall i, j :: 0 <= i < j < |order| ==> order[i] != order[j]) &&
    (forall i, j :: 0 <= i < j < |order| ==> s[order[i]] <= s[order[j]])
  }

  /** `order[-3:][::-1]`: the last (at most) three entries, last first. */
  function TopIndices(order: seq<nat>): seq<nat>
  {
    var k := if |order| < TopK then |order| else TopK;
    seq(k, i requires 0 <= i < k => order[|order| - 1 - i])
  }

  /** The top three of an argsort: as many as there are scores, up to three,
      distinct valid indices, in non-increasing order of score. */
  lemma TopIndicesOrdered(order: seq<nat>, s: seq<real>)
    requires IsArgsort(order, s)
    ensures |TopIndices(order)| == (if |s| < TopK then |s| else TopK)
    ensures NonIncreasing(s, TopIndices(order))
    ensures Distinct(TopIndices(order))
  {
    var top := TopIndices(order);
    var n := |order|;
    forall i, j | 0 <= i < j < |top|
      ensures s[top[i]] >= s[top[j]] && top[i] != top[j]
    {
      assert top[i] == order[n - 1 - i] && top[j] == order[n - 1 - j];
    }
  }

  /** No index left out of the top three scores higher than any index in it:
      the top three agree with a brute-force sort of the whole row. */
  lemma TopIndicesDominate(order: seq<nat>, s: seq<real>)
    requires IsArgsort(order, s)
    ensures forall j, t :: 0 <= j < |s| && j !in TopIndices(order) && 0 <= t < |TopIndices(order)| ==>
      s[j] <= s[TopIndices(order)[t]]
  {
    var top := TopIndices(order);
    var n := |order|;
    var k := |top|;
    forall q | n - k <= q < n
      ensures order[q] in top
    {
      assert top[n - 1 - q] == order[q];
    }
    forall j, t | 0 <= j < |s| && j !in top && 0 <= t < k
      ensures s[j] <= s[top[t]]
    {
      assert j in order;
      var p :| 0 <= p < n && order[p] == j;
      assert p < n - k;
      assert top[t] == order[n - 1 - t];
    }
  }

  /** The first of the top three carries the maximum score, the one `np.argmax` finds. */
  lemma TopIndicesStartAtMax(order: seq<nat>, s: seq<real>)
    requires IsArgsort(order, s) && |s| > 0
    ensures s[TopIndices(order)[0]] == s[ArgMax(s)]
  {
    var n := |order|;
    var m := ArgMax(s);
    assert m in order;
    var p :| 0 <= p < n && order[p] == m;
    assert TopIndices(order)[0] == order[n - 1];
    if p < n - 1 {
      assert s[order[p]] <= s[order[n - 1]];
    }
  }

  /** The indices of `xs` that are below `n`, in their order in `xs`
      (the loop's `if idx < len(CLASS_NAMES)`). */
  function InCatalog(xs: seq<nat>, n: nat): (r: seq<nat>)
    ensures |r| <= |xs|
    decreases |xs|
  {
    if xs == [] then []
    else
      var last := xs[|xs| - 1];
      InCatalog(xs[..|xs| - 1], n) + (if last < n then [last] else [])
  }

  /** The filter keeps exactly the indices of `xs` below `n`. */
  lemma {:induction false} InCatalogMembers(xs: seq<nat>, n: nat)
    ensures forall x :: x in InCatalog(xs, n) <==> x in xs && x < n
    decreases |xs|
  {
    if xs != [] {
      var init := xs[..|xs| - 1];
      InCatalogMembers(init, n);
      assert xs == init + [xs[|xs| - 1]];
    }
  }

  /** Dropping out-of-catalog indices keeps the order of the rest. */
  lemma {:induction false} InCatalogNonIncreasing(s: seq<real>, xs: seq<nat>, n: nat)
    requires NonIncreasing(s, xs)
    ensures NonIncreasing(s, InCatalog(xs, n))
    decreases |xs|
  {
    if xs != [] {
      var init := xs[..|xs| - 1];
      var last := xs[|xs| - 1];
      assert NonIncreasing(s, init);
      InCatalogNonIncreasing(s, init, n);
      var kept := InCatalog(init, n);
      InCatalogMembers(init, n);
      forall i | 0 <= i < |kept|
        ensures s[kept[i]] >= s[last]
      {
        assert kept[i] in init;
        var p :| 0 <= p < |init| && init[p] == kept[i];
        assert xs[p] == kept[i];
      }
    }
  }

  /** Inserts index `x` into `sorted`, before the first entry that scores more. */
  function Insert(s: seq<real>, x: nat, sorted: seq<nat>): seq<nat>
    decreases |sorted|
  {
    if sorted == [] then [x]
    else if x < |s| && sorted[0] < |s| && s[x] <= s[sorted[0]] then [x] + sorted
    else [sorted[0]] + Insert(s, x, sorted[1..])
  }

  /** Insertion adds exactly `x`. */
  lemma {:induction false} InsertMembers(s: seq<real>, x: nat, sorted: seq<nat>)
    ensures |Insert(s, x, sorted)| == |sorted| + 1
    ensures forall y :: y in Insert(s, x, sorted) <==> y == x || y in sorted
    decreases |sorted|
  {
    if sorted != [] {
      InsertMembers(s, x, sorted[1..]);
      assert sorted == [sorted[0]] + sorted[1..];
    }
  }

  /** Insertion keeps the entries sorted by score. */
  lemma {:induction false} InsertSorted(s: seq<real>, x: nat, sorted: seq<nat>)
    requires x < |s| && NonDecreasing(s, sorted)
    ensures NonDecreasing(s, Insert(s, x, sorted))
    decreases |sorted|
  {
    if sorted != [] && s[x] > s[sorted[0]] {
      var head := sorted[0];
      var tail := sorted[1..];
      InsertSorted(s, x, tail);
      InsertMembers(s, x, tail);
      var rest := Insert(s, x, tail);
      forall y | y in rest
        ensures y < |s| && s[head] <= s[y]
      {
        if y != x {
          var p :| 0 <= p < |tail| && tail[p] == y;
          assert sorted[p + 1] == y;
        }
      }
      assert Insert(s, x, sorted) == [head] + rest;
    }
  }

  /** Inserting a new index into distinct indices keeps them distinct. */
  lemma {:induction false} InsertDistinct(s: seq<real>, x: nat, sorted: seq<nat>)
    requires x !in sorted && Distinct(sorted)
    ensures Distinct(Insert(s, x, sorted))
    decreases |sorted|
  {
    if sorted != [] {
      var tail := sorted[1..];
      InsertDistinct(s, x, tail);
      InsertMembers(s, x, tail);
      assert sorted[0] !in tail;
    }
  }

  predicate NonDecreasing(s: seq<real>, xs: seq<nat>)
  {
    (forall i :: 0 <= i < |xs| ==> xs[i] < |s|) &&
    forall i, j :: 0 <= i < j < |xs| ==> s[xs[i]] <= s[xs[j]]
  }

  predicate Distinct(xs: seq<nat>)
  {
    forall i, j :: 0 <= i < j < |xs| ==> xs[i] != xs[j]
  }

  /** Insertion sort of the indices below `n` by score. */
  function SortIndices(s: seq<real>, n: nat): seq<nat>
    decreases n
  {
    if n == 0 then [] else Insert(s, n - 1, SortIndices(s, n - 1))
  }

  /** Sorting the indices below `n` yields each of them once, ordered by score. */
  lemma {:induction false} SortIndicesSorted(s: seq<real>, n: nat)
    requires n <= |s|
    ensures |SortIndices(s, n)| == n
    ensures NonDecreasing(s, SortIndices(s, n)) && Distinct(SortIndices(s, n))
    ensures forall y: nat :: y in SortIndices(s, n) <==> y < n
    decreases n
  {
    if n > 0 {
      SortIndicesSorted(s, n - 1);
      InsertMembers(s, n - 1, SortIndices(s, n - 1));
      InsertSorted(s, n - 1, SortIndices(s, n - 1));
      InsertDistinct(s, n - 1, SortIndices(s, n - 1));
    }
  }

  /** Every score vector has an argsort, so the top-3 computation never lacks one. */
  lemma ArgsortExists(s: seq<real>)
    ensures IsArgsort(SortIndices(s, |s|), s)
  {
    SortIndicesSorted(s, |s|);
  }

  /** Filtering a list that lies wholly inside the catalog keeps all of it. */
  lemma {:induction false} InCatalogAll(xs: seq<nat>, n: nat)
    requires forall i :: 0 <= i < |xs| ==> xs[i] < n
    ensures InCatalog(xs, n) == xs
    decreases |xs|
  {
    if xs != [] {
      InCatalogAll(xs[..|xs| - 1], n);
      assert xs[..|xs| - 1] + [xs[|xs| - 1]] == xs;
    }
  }

  /** The first maximum lies below `n` exactly when some index below `n` holds the maximum. */
  lemma ArgMaxBelow(s: seq<real>, n: nat)
    requires |s| > 0
    ensures ArgMax(s) < n <==> exists k :: 0 <= k < |s| && k < n && forall j :: 0 <= j < |s| ==> s[j] <= s[k]
  {
    var m := ArgMax(s);
    if k :| 0 <= k < |s| && k < n && forall j :: 0 <= j < |s| ==> s[j] <= s[k] {
      assert s[m] <= s[k];
      assert m <= k;
    }
  }
}
