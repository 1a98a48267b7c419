/** Sequence helpers shared by the listing pages and the report code:
    the `Array.prototype.filter` and `reduce((sum, x) => sum + f(x), 0)`
    idioms the portal uses everywhere, stated once with their laws. */
module Seqs {

  /** The elements of `s` that satisfy `p`, in their original order. */
  function Filter<T>(s: seq<T>, p: T -> bool): (r: seq<T>)
    ensures |r| <= |s|
    ensures forall i :: 0 <= i < |r| ==> r[i] in s && p(r[i])
    ensures forall i :: 0 <= i < |s| && p(s[i]) ==> s[i] in r
    decreases |s|
  {
    if |s| == 0 then []
    else if p(s[0]) then [s[0]] + Filter(s[1..], p)
    else Filter(s[1..], p)
  }

  function Not<T>(p: T -> bool): T -> bool { x => !p(x) }

  function Both<T>(p: T -> bool, q: T -> bool): T -> bool { x => p(x) && q(x) }

  /** `s.reduce((sum, x) => sum + f(x), 0)` over exact reals. */
  function Sum<T>(s: seq<T>, f: T -> real): real
    decreases |s|
  {
    if |s| == 0 then 0.0 else f(s[0]) + Sum(s[1..], f)
  }

  /** `r` is obtained from `s` by deleting elements, keeping the order of the rest. */
  predicate IsSubsequence<T(==)>(r: seq<T>, s: seq<T>)
    decreases |s|
  {
    |r| == 0 ||
    (|s| > 0 && ((r[0] == s[0] && IsSubsequence(r[1..], s[1..])) || IsSubsequence(r, s[1..])))
  }

  lemma {:induction false} FilterIsSubsequence<T>(s: seq<T>, p: T -> bool)
    ensures IsSubsequence(Filter(s, p), s)
    decreases |s|
  {
    if |s| > 0 {
      FilterIsSubsequence(s[1..], p);
      if p(s[0]) {
        var r := Filter(s, p);
        assert r[0] == s[0] && r[1..] == Filter(s[1..], p);
      }
    }
  }

  lemma {:induction false} SubsequenceTransitive<T>(a: seq<T>, b: seq<T>, c: seq<T>)
    requires IsSubsequence(a, b) && IsSubsequence(b, c)
    ensures IsSubsequence(a, c)
    decreases |c|
  {
    if |a| > 0 {
      assert |b| > 0;
      if b[0] == c[0] && IsSubsequence(b[1..], c[1..]) {
        if a[0] == b[0] && IsSubsequence(a[1..], b[1..]) {
          SubsequenceTransitive(a[1..], b[1..], c[1..]);
        } else {
          SubsequenceTransitive(a, b[1..], c[1..]);
          SubsequenceOfTail(b, c);
        }
      } else {
        SubsequenceTransitive(a, b, c[1..]);
      }
    }
  }

  /** Helper for transitivity: a subsequence of `b[1..]` embedding case. */
  lemma SubsequenceOfTail<T>(b: seq<T>, c: seq<T>)
    requires |b| > 0 && |c| > 0 && b[0] == c[0] && IsSubsequence(b[1..], c[1..])
    ensures IsSubsequence(b, c)
  {
  }

  lemma {:induction false} FilterAppend<T>(a: seq<T>, b: seq<T>, p: T -> bool)
    ensures Filter(a + b, p) == Filter(a, p) + Filter(b, p)
    decreases |a|
  {
    if |a| > 0 {
      assert (a + b)[0] == a[0] && (a + b)[1..] == a[1..] + b;
      FilterAppend(a[1..], b, p);
    } else {
      assert a + b == b;
    }
  }

  lemma {:induction false} FilterFilter<T>(s: seq<T>, p: T -> bool, q: T -> bool)
    ensures Filter(Filter(s, p), q) == Filter(s, Both(p, q))
    decreases |s|
  {
    if |s| > 0 {
      FilterFilter(s[1..], p, q);
      if p(s[0]) {
        var f := Filter(s, p);
        assert f == [s[0]] + Filter(s[1..], p);
        assert f[0] == s[0] && f[1..] == Filter(s[1..], p);
      }
    }
  }

  lemma {:induction false} FilterKeepsAll<T>(s: seq<T>, p: T -> bool)
    requires forall i :: 0 <= i < |s| ==> p(s[i])
    ensures Filter(s, p) == s
    decreases |s|
  {
    if |s| > 0 {
      FilterKeepsAll(s[1..], p);
      assert [s[0]] + s[1..] == s;
    }
  }

  lemma {:induction false} FilterDropsAll<T>(s: seq<T>, p: T -> bool)
    requires forall i :: 0 <= i < |s| ==> !p(s[i])
    ensures Filter(s, p) == []
    decreases |s|
  {
    if |s| > 0 {
      FilterDropsAll(s[1..], p);
    }
  }

  /** Splitting by a predicate and its negation loses and duplicates nothing. */
  lemma {:induction false} FilterPartitionMultiset<T>(s: seq<T>, p: T -> bool)
    ensures multiset(Filter(s, p)) + multiset(Filter(s, Not(p))) == multiset(s)
    decreases |s|
  {
    if |s| > 0 {
      FilterPartitionMultiset(s[1..], p);
      assert s == [s[0]] + s[1..];
    }
  }

  lemma {:induction false} SumAppend<T>(a: seq<T>, b: seq<T>, f: T -> real)
    ensures Sum(a + b, f) == Sum(a, f) + Sum(b, f)
    decreases |a|
  {
    if |a| > 0 {
      assert (a + b)[0] == a[0] && (a + b)[1..] == a[1..] + b;
      SumAppend(a[1..], b, f);
    } else {
      assert a + b == b;
    }
  }

  /** Summing the part that satisfies `p` and the part that does not gives the whole sum. */
  lemma {:induction false} SumSplit<T>(s: seq<T>, p: T -> bool, f: T -> real)
    ensures Sum(Filter(s, p), f) + Sum(Filter(s, Not(p)), f) == Sum(s, f)
    decreases |s|
  {
    if |s| > 0 {
      SumSplit(s[1..], p, f);
    }
  }

  lemma {:induction false} SumNonNegative<T>(s: seq<T>, f: T -> real)
    requires forall i :: 0 <= i < |s| ==> f(s[i]) >= 0.0
    ensures Sum(s, f) >= 0.0
    decreases |s|
  {
    if |s| > 0 {
      SumNonNegative(s[1..], f);
    }
  }

  lemma {:induction false} SumPointwise<T>(s: seq<T>, f: T -> real, g: T -> real, h: T -> real)
    requires forall i :: 0 <= i < |s| ==> f(s[i]) == g(s[i]) - h(s[i])
    ensures Sum(s, f) == Sum(s, g) - Sum(s, h)
    decreases |s|
  {
    if |s| > 0 {
      SumPointwise(s[1..], f, g, h);
    }
  }

  /** `s.slice(0, n)`. */
  function Take<T>(s: seq<T>, n: nat): (r: seq<T>)
    ensures r <= s
    ensures |r| == if n < |s| then n else |s|
  {
    if n < |s| then s[..n] else s
  }

  /** Filtering a prefix yields a prefix of the filtered whole. */
  lemma FilterPrefix<T>(s: seq<T>, n: nat, p: T -> bool)
    requires n <= |s|
    ensures Filter(s[..n], p) <= Filter(s, p)
  {
    assert s == s[..n] + s[n..];
    FilterAppend(s[..n], s[n..], p);
  }

  function Masked<T>(p: T -> bool, f: T -> real): T -> real
  {
    x => if p(x) then f(x) else 0.0
  }

  /** Summing over the filtered sequence is summing over all of it with the
      rejected elements counted as 0. */
  lemma {:induction false} SumFilterMasked<T>(s: seq<T>, p: T -> bool, f: T -> real)
    ensures Sum(Filter(s, p), f) == Sum(s, Masked(p, f))
    decreases |s|
  {
    if |s| > 0 {
      SumFilterMasked(s[1..], p, f);
    }
  }

  /** A property of every element carries over to any permutation. */
  lemma PermutationCarries<T>(a: seq<T>, b: seq<T>, q: T -> bool)
    requires multiset(a) == multiset(b)
    requires forall i :: 0 <= i < |b| ==> q(b[i])
    ensures forall i :: 0 <= i < |a| ==> q(a[i])
  {
    forall i | 0 <= i < |a| ensures q(a[i]) {
      assert a[i] in multiset(b);
      var j :| 0 <= j < |b| && b[j] == a[i];
    }
  }

  /** In `Filter(s, p) + Filter(s, Not(p))` every element satisfying `p` comes first. */
  lemma PartitionOrder<T>(s: seq<T>, p: T -> bool)
    ensures var r := Filter(s, p) + Filter(s, Not(p));
            forall i, j :: 0 <= i < j < |r| && p(r[j]) ==> p(r[i])
  {
    var a := Filter(s, p);
    var b := Filter(s, Not(p));
    var r := a + b;
    forall i, j | 0 <= i < j < |r| && p(r[j])
      ensures p(r[i])
    {
      if j >= |a| {
        assert false;
      }
    }
  }

  /** Filtering by two predicates that agree on every element gives the same result. */
  lemma {:induction false} FilterCongruent<T>(s: seq<T>, p: T -> bool, q: T -> bool)
    requires forall i :: 0 <= i < |s| ==> p(s[i]) == q(s[i])
    ensures Filter(s, p) == Filter(s, q)
    decreases |s|
  {
    if |s| > 0 {
      FilterCongruent(s[1..], p, q);
    }
  }

  /** Filtering by `p` and then by `q` is filtering once by any `r` that is
      `p && q` on the elements of `s`. */
  lemma FilterThen<T>(s: seq<T>, p: T -> bool, q: T -> bool, r: T -> bool)
    requires forall i :: 0 <= i < |s| ==> r(s[i]) == (p(s[i]) && q(s[i]))
    ensures Filter(Filter(s, p), q) == Filter(s, r)
  {
    FilterFilter(s, p, q);
    FilterCongruent(s, Both(p, q), r);
  }

  /** No value occurs twice. */
  predicate Distinct<T(==)>(s: seq<T>)
  {
    forall i, j :: 0 <= i < j < |s| ==> s[i] != s[j]
  }

  /** `[...new Set(s)]`: the first occurrence of each value, in order of
      first occurrence. */
  function Dedupe<T(==)>(s: seq<T>): (r: seq<T>)
    ensures Distinct(r)
    ensures forall i :: 0 <= i < |r| ==> r[i] in s
    ensures forall i :: 0 <= i < |s| ==> s[i] in r
    decreases |s|
  {
    if |s| == 0 then []
    else
      var r := Dedupe(s[..|s| - 1]);
      if s[|s| - 1] in r then r else r + [s[|s| - 1]]
  }

  lemma {:induction false} DistinctMultiplicity<T>(s: seq<T>, x: T)
    requires Distinct(s)
    ensures multiset(s)[x] <= 1
    decreases |s|
  {
    if |s| > 0 {
      assert s == [s[0]] + s[1..];
      DistinctMultiplicity(s[1..], x);
      if s[0] == x {
        assert x !in s[1..];
      }
    }
  }

  /** A rearrangement of a sequence without repeats has no repeats. */
  lemma PermutationDistinct<T>(a: seq<T>, b: seq<T>)
    requires multiset(a) == multiset(b) && Distinct(b)
    ensures Distinct(a)
  {
    forall i, j | 0 <= i < j < |a| ensures a[i] != a[j] {
      if a[i] == a[j] {
        assert a == a[..j] + [a[j]] + a[j + 1..];
        assert a[i] in a[..j];
        assert multiset(a)[a[j]] >= 2;
        DistinctMultiplicity(b, a[j]);
      }
    }
  }
}
