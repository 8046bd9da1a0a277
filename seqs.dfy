/**
 * The array methods the core uses, on sequences: `find`, `filter`, the
 * duplicate removal done by `[...new Set(xs)]` and `slice(0, count)`, with
 * the order facts the callers depend on.
 */
module Seqs {
  import opened Wrappers

  /** `a` is `b` with some elements deleted: an order-preserving subsequence. */
  predicate IsSubsequence<T(==)>(a: seq<T>, b: seq<T>)
    decreases |b|
  {
    || a == []
    || (b != [] && ((a[0] == b[0] && IsSubsequence(a[1..], b[1..])) || IsSubsequence(a, b[1..])))
  }

  /** No element occurs twice. */
  predicate NoDuplicates<T(==)>(s: seq<T>) {
    forall i, j :: 0 <= i < j < |s| ==> s[i] != s[j]
  }

  /** `s.find(p)`: the first element satisfying `p`, or nothing when none does. */
  function Find<T>(s: seq<T>, p: T -> bool): (r: Option<T>)
    ensures r.None? <==> forall i :: 0 <= i < |s| ==> !p(s[i])
    ensures r.Some? ==> exists i :: 0 <= i < |s| && s[i] == r.value && p(s[i]) && forall j :: 0 <= j < i ==> !p(s[j])
    decreases |s|
  {
    if s == [] then None
    else if p(s[0]) then Some(s[0])
    else
      var r := Find(s[1..], p);
      assert forall i :: 1 <= i < |s| ==> s[i] == s[1..][i - 1];
      r
  }

  /** `s.filter(keep)`: exactly the kept elements, each as often as in `s`, in their order. */
  function Filter<T(!new)>(s: seq<T>, keep: T -> bool): (r: seq<T>)
    ensures IsSubsequence(r, s) && |r| <= |s|
    ensures forall x :: x in r <==> x in s && keep(x)
    ensures forall x :: multiset(r)[x] == if keep(x) then multiset(s)[x] else 0
    decreases |s|
  {
    if s == [] then []
    else
      var rest := Filter(s[1..], keep);
      assert s == [s[0]] + s[1..];
      if keep(s[0]) then
        assert ([s[0]] + rest)[1..] == rest;
        [s[0]] + rest
      else rest
  }

  /** Filtering with a test that every element passes changes nothing. */
  lemma {:induction false} FilterAll<T(!new)>(s: seq<T>, keep: T -> bool)
    requires forall i :: 0 <= i < |s| ==> keep(s[i])
    ensures Filter(s, keep) == s
    decreases |s|
  {
    if s != [] {
      FilterAll(s[1..], keep);
      assert [s[0]] + s[1..] == s;
    }
  }

  /** Filtering by a conjunction is filtering by one conjunct, then by the other. */
  lemma {:induction false} FilterConjunction<T(!new)>(s: seq<T>, both: T -> bool, first: T -> bool, second: T -> bool)
    requires forall x :: both(x) == (first(x) && second(x))
    ensures Filter(s, both) == Filter(Filter(s, first), second)
    decreases |s|
  {
    if s != [] {
      FilterConjunction(s[1..], both, first, second);
      if first(s[0]) {
        assert ([s[0]] + Filter(s[1..], first))[1..] == Filter(s[1..], first);
      }
    }
  }

  /** Two tests that agree on every element filter alike. */
  lemma {:induction false} FilterAgree<T(!new)>(s: seq<T>, f: T -> bool, g: T -> bool)
    requires forall i :: 0 <= i < |s| ==> f(s[i]) == g(s[i])
    ensures Filter(s, f) == Filter(s, g)
    decreases |s|
  {
    if s != [] {
      FilterAgree(s[1..], f, g);
    }
  }

  /** The position of the first occurrence of `x`. */
  function FirstIndex<T(==)>(s: seq<T>, x: T): (k: nat)
    requires x in s
    ensures k < |s| && s[k] == x
    ensures forall j :: 0 <= j < k ==> s[j] != x
    decreases |s|
  {
    if s[0] == x then 0 else 1 + FirstIndex(s[1..], x)
  }

  /**
   * `[...new Set(s)]`: a Set keeps the first insertion of each value and
   * iterates in insertion order.
   */
  function Distinct<T(==,!new)>(s: seq<T>): (r: seq<T>)
    ensures NoDuplicates(r)
    ensures forall x :: x in r <==> x in s
    decreases |s|
  {
    if s == [] then []
    else
      var init := s[..|s| - 1];
      var last := s[|s| - 1];
      var p := Distinct(init);
      assert s == init + [last];
      if last in p then p else p + [last]
  }

  lemma FirstIndexPrefix<T>(s: seq<T>, x: T)
    requires |s| > 0 && x in s[..|s| - 1]
    ensures FirstIndex(s, x) == FirstIndex(s[..|s| - 1], x)
  {
    var init := s[..|s| - 1];
    var k := FirstIndex(init, x);
    assert forall j :: 0 <= j < |init| ==> s[j] == init[j];
  }

  /** The distinct values come in the order of their first occurrence in `s`. */
  lemma {:induction false} DistinctOrder<T(!new)>(s: seq<T>)
    ensures forall i, j :: 0 <= i < j < |Distinct(s)| ==> FirstIndex(s, Distinct(s)[i]) < FirstIndex(s, Distinct(s)[j])
    decreases |s|
  {
    if s != [] {
      var init := s[..|s| - 1];
      var last := s[|s| - 1];
      var p := Distinct(init);
      DistinctOrder(init);
      forall x | x in p ensures FirstIndex(s, x) == FirstIndex(init, x) {
        FirstIndexPrefix(s, x);
      }
      if last !in p {
        assert FirstIndex(s, last) == |s| - 1 by {
          assert forall j :: 0 <= j < |s| - 1 ==> s[j] == init[j];
        }
        var r := p + [last];
        assert forall x :: x in r ==> x in s;
        forall i, j | 0 <= i < j < |r| ensures FirstIndex(s, r[i]) < FirstIndex(s, r[j]) {
          assert r[i] == p[i];
          if j < |p| {
            assert r[j] == p[j];
          }
        }
      }
    }
  }
  /** Filtering a sequence with a first element: that element, if kept, then the filtered rest. */
  lemma FilterCons<T(!new)>(x: T, s: seq<T>, keep: T -> bool)
    ensures Filter([x] + s, keep) == (if keep(x) then [x] else []) + Filter(s, keep)
  {
    assert ([x] + s)[0] == x && ([x] + s)[1..] == s;
  }

  /** The first `n` elements, or all of them when there are fewer. */
  function Take<T>(s: seq<T>, n: int): (r: seq<T>)
    ensures |r| == if n <= 0 then 0 else if n < |s| then n else |s|
    ensures r == s[..|r|]
    decreases |s|
  {
    if n <= 0 || s == [] then [] else [s[0]] + Take(s[1..], n - 1)
  }

  /** `s.slice(0, count)`: a negative count is counted back from the end. */
  function SliceTo<T>(s: seq<T>, count: int): (r: seq<T>)
    ensures count >= 0 ==> |r| == if count < |s| then count else |s|
    ensures count < 0 ==> |r| == if |s| + count > 0 then |s| + count else 0
    ensures r == s[..|r|]
  {
    Take(s, if count < 0 then |s| + count else count)
  }

  /** A prefix of a list without repeats has none either. */
  lemma PrefixNoDuplicates<T>(s: seq<T>, r: seq<T>)
    requires NoDuplicates(s) && |r| <= |s| && r == s[..|r|]
    ensures NoDuplicates(r)
  {
    assert forall i :: 0 <= i < |r| ==> r[i] == s[i];
  }
}
