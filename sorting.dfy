/** The stable sort behind `Array.prototype.sort(cmp)` when the comparator
    has the form `(a, b) => key(a) - key(b)`.  Sorting is stable since
    ES2019, so the result is determined by the key alone: `Sort` below is
    that result, written as a stable insertion sort, and `SortInPlace`
    computes it on an array. Descending orders use a negated key. */
module Sorting {
  import opened Seqs

  predicate SortedBy<T>(s: seq<T>, key: T -> real)
  {
    forall i, j :: 0 <= i < j < |s| ==> key(s[i]) <= key(s[j])
  }

  /** Places `x` after every trailing element of `t` whose key exceeds
      `key(x)` — that is, after all elements with key <= key(x) when `t` is sorted. */
  function Insert<T>(t: seq<T>, x: T, key: T -> real): (r: seq<T>)
    ensures |r| == |t| + 1
    decreases |t|
  {
    if |t| == 0 || key(t[|t| - 1]) <= key(x) then t + [x]
    else Insert(t[..|t| - 1], x, key) + [t[|t| - 1]]
  }

  function Sort<T>(s: seq<T>, key: T -> real): (r: seq<T>)
    ensures |r| == |s|
    decreases |s|
  {
    if |s| == 0 then []
    else Insert(Sort(s[..|s| - 1], key), s[|s| - 1], key)
  }

  lemma {:induction false} InsertPermutes<T>(t: seq<T>, x: T, key: T -> real)
    ensures multiset(Insert(t, x, key)) == multiset(t) + multiset{x}
    decreases |t|
  {
    if |t| > 0 && key(t[|t| - 1]) > key(x) {
      assert t == t[..|t| - 1] + [t[|t| - 1]];
      InsertPermutes(t[..|t| - 1], x, key);
    }
  }

  /** The result of `Sort` is a permutation of its input: nothing is dropped or duplicated. */
  lemma {:induction false} SortPermutes<T>(s: seq<T>, key: T -> real)
    ensures multiset(Sort(s, key)) == multiset(s)
    decreases |s|
  {
    if |s| > 0 {
      assert s == s[..|s| - 1] + [s[|s| - 1]];
      SortPermutes(s[..|s| - 1], key);
      InsertPermutes(Sort(s[..|s| - 1], key), s[|s| - 1], key);
    }
  }

  /** The elements whose key is exactly `k`. */
  function KeyIs<T>(key: T -> real, k: real): T -> bool { x => key(x) == k }

  lemma {:induction false} InsertSorted<T>(t: seq<T>, x: T, key: T -> real)
    requires SortedBy(t, key)
    ensures SortedBy(Insert(t, x, key), key)
    decreases |t|
  {
    if |t| > 0 && key(t[|t| - 1]) > key(x) {
      var init := t[..|t| - 1];
      var last := t[|t| - 1];
      InsertSorted(init, x, key);
      InsertPermutes(init, x, key);
      var r := Insert(init, x, key);
      forall i | 0 <= i < |r| ensures key(r[i]) <= key(last) {
        assert r[i] in multiset(init) + multiset{x};
        if r[i] != x {
          assert r[i] in init;
        }
      }
    }
  }

  /** The result of `Sort` is ordered by the key. */
  lemma {:induction false} SortSorted<T>(s: seq<T>, key: T -> real)
    ensures SortedBy(Sort(s, key), key)
    decreases |s|
  {
    if |s| > 0 {
      SortSorted(s[..|s| - 1], key);
      InsertSorted(Sort(s[..|s| - 1], key), s[|s| - 1], key);
    }
  }

  lemma {:induction false} InsertStable<T>(t: seq<T>, x: T, key: T -> real, k: real)
    ensures Filter(Insert(t, x, key), KeyIs(key, k))
         == Filter(t, KeyIs(key, k)) + (if key(x) == k then [x] else [])
    decreases |t|
  {
    var p := KeyIs(key, k);
    if |t| == 0 || key(t[|t| - 1]) <= key(x) {
      FilterAppend(t, [x], p);
    } else {
      var init := t[..|t| - 1];
      var last := t[|t| - 1];
      assert t == init + [last];
      InsertStable(init, x, key, k);
      FilterAppend(Insert(init, x, key), [last], p);
      FilterAppend(init, [last], p);
    }
  }

  /** Stability: for every key value, the elements with that key appear in
      the result in exactly the order they had in the input. */
  lemma {:induction false} SortStable<T>(s: seq<T>, key: T -> real, k: real)
    ensures Filter(Sort(s, key), KeyIs(key, k)) == Filter(s, KeyIs(key, k))
    decreases |s|
  {
    if |s| > 0 {
      var init := s[..|s| - 1];
      var last := s[|s| - 1];
      assert s == init + [last];
      SortStable(init, key, k);
      InsertStable(Sort(init, key), last, key, k);
      FilterAppend(init, [last], KeyIs(key, k));
    }
  }

  /** A comparator that always returns 0 leaves the order unchanged. */
  lemma {:induction false} SortConstantKey<T>(s: seq<T>, key: T -> real, c: real)
    requires forall i :: 0 <= i < |s| ==> key(s[i]) == c
    ensures Sort(s, key) == s
    decreases |s|
  {
    if |s| > 0 {
      var init, last := s[..|s| - 1], s[|s| - 1];
      forall i | 0 <= i < |init| ensures key(init[i]) == c {
        assert init[i] == s[i];
      }
      SortConstantKey(init, key, c);
      assert Sort(s, key) == Insert(init, last, key);
      InsertStops(init, last, key);
      assert s == init + [last];
    }
  }

  /** Taking the elements that satisfy `p` keeps a sorted sequence sorted. */
  lemma {:induction false} FilterSorted<T>(s: seq<T>, p: T -> bool, key: T -> real)
    requires SortedBy(s, key)
    ensures SortedBy(Filter(s, p), key)
    decreases |s|
  {
    if |s| > 0 {
      FilterSorted(s[1..], p, key);
      var rest := Filter(s[1..], p);
      forall i | 0 <= i < |rest| ensures key(s[0]) <= key(rest[i]) {
        assert rest[i] in s[1..];
      }
    }
  }

  /** Insertion sort on the array itself; the result is `Sort` of the old contents. */
  method SortInPlace<T>(a: array<T>, key: T -> real)
    modifies a
    ensures a[..] == Sort(old(a[..]), key)
  {
    ghost var orig := a[..];
    var i := 0;
    while i < a.Length
      invariant 0 <= i <= a.Length
      invariant a[..i] == Sort(orig[..i], key)
      invariant a[i..] == orig[i..]
    {
      assert orig[..i + 1] == orig[..i] + [orig[i]];
      assert orig[..i + 1][..i] == orig[..i];
      InsertLast(a, i, key);
      i := i + 1;
    }
    assert a[..] == a[..a.Length] && orig == orig[..a.Length];
  }

  /** One outer step: moves `a[i]` left past the larger keys of the sorted prefix. */
  method InsertLast<T>(a: array<T>, i: nat, key: T -> real)
    requires i < a.Length
    modifies a
    ensures a[..i + 1] == Insert(old(a[..i]), old(a[i]), key)
    ensures a[i + 1..] == old(a[i + 1..])
  {
    var x := a[i];
    ghost var sorted := a[..i];
    ghost var moved: seq<T> := [];
    var j := i;
    assert sorted[..j] == sorted;
    while j > 0 && key(a[j - 1]) > key(x)
      invariant 0 <= j <= i && |moved| == i - j
      invariant forall k :: 0 <= k < j ==> a[k] == sorted[k]
      invariant a[j] == x
      invariant forall k :: j < k <= i ==> a[k] == moved[k - j - 1]
      invariant forall k :: i < k < a.Length ==> a[k] == old(a[k])
      invariant Insert(sorted, x, key) == Insert(sorted[..j], x, key) + moved
    {
      InsertShift(Insert(sorted, x, key), sorted[..j], x, moved, key);
      assert sorted[..j][..j - 1] == sorted[..j - 1];
      a[j - 1], a[j] := a[j], a[j - 1];
      moved := [sorted[j - 1]] + moved;
      j := j - 1;
    }
    InsertStops(sorted[..j], x, key);
    AssembledPrefix(a[..], sorted, x, moved, j, i);
    assert a[..i + 1] == a[..][..i + 1];
  }

  /** One step of the inner loop on the specification side: `x` moves left
      past the last element of `t`, which joins the shifted elements. */
  lemma InsertShift<T>(whole: seq<T>, t: seq<T>, x: T, moved: seq<T>, key: T -> real)
    requires |t| > 0 && key(t[|t| - 1]) > key(x)
    requires whole == Insert(t, x, key) + moved
    ensures whole == Insert(t[..|t| - 1], x, key) + ([t[|t| - 1]] + moved)
  {
    InsertUnfold(t, x, key);
    ConcatAssoc(Insert(t[..|t| - 1], x, key), [t[|t| - 1]], moved);
  }

  /** The array contents after the inner loop: the untouched prefix, `x`,
      then the shifted elements. */
  lemma AssembledPrefix<T>(s: seq<T>, sorted: seq<T>, x: T, moved: seq<T>, j: nat, i: nat)
    requires j <= i < |s| && |sorted| == i && |moved| == i - j
    requires forall k :: 0 <= k < j ==> s[k] == sorted[k]
    requires s[j] == x
    requires forall k :: j < k <= i ==> s[k] == moved[k - j - 1]
    ensures s[..i + 1] == sorted[..j] + [x] + moved
  {
    var r := sorted[..j] + [x] + moved;
    forall k | 0 <= k <= i ensures s[k] == r[k] {
      if k < j {
        assert r[k] == sorted[k];
      } else if j < k {
        assert r[k] == moved[k - j - 1];
      }
    }
  }

  lemma InsertStops<T>(t: seq<T>, x: T, key: T -> real)
    requires |t| == 0 || key(t[|t| - 1]) <= key(x)
    ensures Insert(t, x, key) == t + [x]
  {
  }

  lemma InsertUnfold<T>(t: seq<T>, x: T, key: T -> real)
    requires |t| > 0 && key(t[|t| - 1]) > key(x)
    ensures Insert(t, x, key) == Insert(t[..|t| - 1], x, key) + [t[|t| - 1]]
  {
  }

  /** `Insert` places `x` right after `a` in `t == a + b` when every element of
      `b` has a larger key and the last element of `a` does not. */
  lemma {:induction false} InsertBetween<T>(a: seq<T>, b: seq<T>, t: seq<T>, x: T, key: T -> real)
    requires t == a + b
    requires forall i :: 0 <= i < |b| ==> key(b[i]) > key(x)
    requires |a| == 0 || key(a[|a| - 1]) <= key(x)
    ensures Insert(t, x, key) == a + [x] + b
    decreases |b|
  {
    if |b| == 0 {
      assert t == a;
      InsertStops(t, x, key);
    } else {
      var init, last := b[..|b| - 1], b[|b| - 1];
      assert t[..|t| - 1] == a + init && t[|t| - 1] == last;
      InsertBetween(a, init, t[..|t| - 1], x, key);
      InsertUnfold(t, x, key);
      assert b == init + [last];
      ConcatAssoc(a + [x], init, [last]);
    }
  }

  /** Two elements come out in key order, the first one first on a tie. */
  lemma SortPair<T>(x: T, y: T, key: T -> real)
    ensures Sort([x, y], key) == if key(x) <= key(y) then [x, y] else [y, x]
  {
    assert [x, y][..1] == [x];
    assert [x][..0] == [];
    assert Sort([x], key) == [x];
    if key(x) <= key(y) {
      InsertStops([x], y, key);
    } else {
      InsertUnfold([x], y, key);
      assert [x][..0] == [];
    }
  }

  /** Appending an element with a key below all others puts it first. */
  lemma SortSnocFirst<T>(s: seq<T>, x: T, key: T -> real)
    requires forall i :: 0 <= i < |Sort(s, key)| ==> key(Sort(s, key)[i]) > key(x)
    ensures Sort(s + [x], key) == [x] + Sort(s, key)
  {
    SortSnoc(s, x, key);
    InsertBetween([], Sort(s, key), Sort(s, key), x, key);
    assert [] + [x] + Sort(s, key) == [x] + Sort(s, key);
  }

  lemma ConcatAssoc<T>(p: seq<T>, q: seq<T>, r: seq<T>)
    ensures p + (q + r) == (p + q) + r
  {
  }

  /** Sorting `s + [x]` inserts `x` into the sorted `s`. */
  lemma SortSnoc<T>(s: seq<T>, x: T, key: T -> real)
    ensures Sort(s + [x], key) == Insert(Sort(s, key), x, key)
  {
    assert (s + [x])[..|s|] == s;
  }
}
