/**
 * A stable sort in descending order of a real-valued key: what
 * `slice::sort_by(|l, r| key(r).cmp(key(l)))` does. The specification is an
 * insertion sort on sequences; the in-place method on an array is proved
 * equal to it, and the specification is proved sorted, a permutation, and
 * stable (elements of equal key keep their order).
 */
module StableSort {
  import opened Seqs

  predicate SortedDesc<T>(s: seq<T>, key: T -> real)
  {
    forall i, j :: 0 <= i < j < |s| ==> key(s[i]) >= key(s[j])
  }

  /** Every key is at least `b`. */
  predicate AllAtLeast<T>(s: seq<T>, key: T -> real, b: real)
  {
    forall i :: 0 <= i < |s| ==> key(s[i]) >= b
  }

  /** Places `x` after every element whose key is at least its own. */
  function Insert<T>(s: seq<T>, x: T, key: T -> real): (r: seq<T>)
    ensures |r| == |s| + 1
    decreases |s|
  {
    if s == [] then [x]
    else if key(s[|s| - 1]) >= key(x) then s + [x]
    else Insert(s[..|s| - 1], x, key) + [s[|s| - 1]]
  }

  /** The specification of the sort: insert each element in turn. */
  function SortDesc<T>(xs: seq<T>, key: T -> real): (r: seq<T>)
    ensures |r| == |xs|
    decreases |xs|
  {
    if xs == [] then [] else Insert(SortDesc(xs[..|xs| - 1], key), xs[|xs| - 1], key)
  }

  /** The test "has key `k`", as a predicate value. */
  function HasKey<T>(key: T -> real, k: real): T -> bool
  {
    y => key(y) == k
  }

  lemma {:induction false} InsertMultiset<T>(s: seq<T>, x: T, key: T -> real)
    ensures multiset(Insert(s, x, key)) == multiset(s) + multiset{x}
    decreases |s|
  {
    if s != [] && key(s[|s| - 1]) < key(x) {
      InsertMultiset(s[..|s| - 1], x, key);
      assert s == s[..|s| - 1] + [s[|s| - 1]];
    }
  }

  lemma {:induction false} InsertAtLeast<T>(s: seq<T>, x: T, key: T -> real, b: real)
    requires AllAtLeast(s, key, b) && key(x) >= b
    ensures AllAtLeast(Insert(s, x, key), key, b)
    decreases |s|
  {
    if s != [] && key(s[|s| - 1]) < key(x) {
      InsertAtLeast(s[..|s| - 1], x, key, b);
    }
  }

  lemma {:induction false} InsertSorted<T>(s: seq<T>, x: T, key: T -> real)
    requires SortedDesc(s, key)
    ensures SortedDesc(Insert(s, x, key), key)
    decreases |s|
  {
    if s != [] && key(s[|s| - 1]) < key(x) {
      var init := s[..|s| - 1];
      var last := s[|s| - 1];
      InsertSorted(init, x, key);
      assert AllAtLeast(init, key, key(last));
      InsertAtLeast(init, x, key, key(last));
    }
  }

  /** Inserting into a sorted list adds `x` at the end of the elements sharing its key. */
  lemma {:induction false} InsertKeyFilter<T>(s: seq<T>, x: T, key: T -> real, k: real)
    requires SortedDesc(s, key)
    ensures Filter(Insert(s, x, key), HasKey(key, k)) == Filter(s, HasKey(key, k)) + Filter([x], HasKey(key, k))
    decreases |s|
  {
    var p := HasKey(key, k);
    if s == [] {
      assert Filter([x], p) == [] + Filter([x], p);
    } else if key(s[|s| - 1]) >= key(x) {
      FilterAppend(s, [x], p);
    } else {
      var init := s[..|s| - 1];
      var last := s[|s| - 1];
      InsertKeyFilter(init, x, key, k);
      InsertBeforeLast(s, init, last, x, key, k);
    }
  }

  /** The step of `InsertKeyFilter` where `x` goes before the last element. */
  lemma {:induction false} InsertBeforeLast<T>(s: seq<T>, init: seq<T>, last: T, x: T, key: T -> real, k: real)
    requires s == init + [last] && key(last) < key(x)
    requires Filter(Insert(init, x, key), HasKey(key, k)) == Filter(init, HasKey(key, k)) + Filter([x], HasKey(key, k))
    ensures Filter(Insert(s, x, key), HasKey(key, k)) == Filter(s, HasKey(key, k)) + Filter([x], HasKey(key, k))
  {
    var p := HasKey(key, k);
    assert s[..|s| - 1] == init && s[|s| - 1] == last;
    assert Insert(s, x, key) == Insert(init, x, key) + [last];
    FilterAppend(Insert(init, x, key), [last], p);
    FilterAppend(init, [last], p);
    var fx := Filter([x], p);
    var fl := Filter([last], p);
    assert fx == [] || fl == [] by {
      if key(x) == k {
        assert !p(last);
      }
    }
    assert fx + fl == fl + fx;
  }

  /** The output is in descending key order. */
  lemma {:induction false} SortDescSorted<T>(xs: seq<T>, key: T -> real)
    ensures SortedDesc(SortDesc(xs, key), key)
    decreases |xs|
  {
    if xs != [] {
      SortDescSorted(xs[..|xs| - 1], key);
      InsertSorted(SortDesc(xs[..|xs| - 1], key), xs[|xs| - 1], key);
    }
  }

  /** The output is a permutation of the input. */
  lemma {:induction false} SortDescPermutation<T>(xs: seq<T>, key: T -> real)
    ensures multiset(SortDesc(xs, key)) == multiset(xs)
    decreases |xs|
  {
    if xs != [] {
      SortDescPermutation(xs[..|xs| - 1], key);
      InsertMultiset(SortDesc(xs[..|xs| - 1], key), xs[|xs| - 1], key);
      assert xs == xs[..|xs| - 1] + [xs[|xs| - 1]];
    }
  }

  /** Stability: the elements of any one key appear in the output in their input order. */
  lemma {:induction false} SortDescStable<T>(xs: seq<T>, key: T -> real, k: real)
    ensures Filter(SortDesc(xs, key), HasKey(key, k)) == Filter(xs, HasKey(key, k))
    decreases |xs|
  {
    if xs != [] {
      var p := HasKey(key, k);
      var init := xs[..|xs| - 1];
      var last := xs[|xs| - 1];
      var sortedInit := SortDesc(init, key);
      assert SortDesc(xs, key) == Insert(sortedInit, last, key);
      assert Filter(sortedInit, p) == Filter(init, p) by {
        SortDescStable(init, key, k);
      }
      assert Filter(Insert(sortedInit, last, key), p) == Filter(sortedInit, p) + Filter([last], p) by {
        SortDescSorted(init, key);
        InsertKeyFilter(sortedInit, last, key, k);
      }
      assert xs == init + [last];
      FilterAppend(init, [last], p);
    }
  }

  /** When every element has the same key the sort changes nothing. */
  lemma {:induction false} SortDescConstantKey<T>(xs: seq<T>, key: T -> real, k: real)
    requires forall i :: 0 <= i < |xs| ==> key(xs[i]) == k
    ensures SortDesc(xs, key) == xs
  {
    var r := SortDesc(xs, key);
    SortDescPermutation(xs, key);
    forall i | 0 <= i < |r| ensures HasKey(key, k)(r[i]) {
      assert r[i] in multiset(xs);
    }
    SortDescStable(xs, key, k);
    FilterAll(xs, HasKey(key, k));
    FilterAll(r, HasKey(key, k));
  }

  /** `sort_by` on a slice: the array ends up holding the stable descending sort of its old contents. */
  method SortInPlace<T>(a: array<T>, key: T -> real)
    modifies a
    ensures a[..] == SortDesc(old(a[..]), key)
  {
    var original := a[..];
    var sorted: seq<T> := [];
    var i := 0;
    while i < a.Length
      invariant 0 <= i <= a.Length
      invariant a[..] == original
      invariant sorted == SortDesc(original[..i], key)
    {
      assert original[..i + 1][..i] == original[..i];
      sorted := Insert(sorted, a[i], key);
      i := i + 1;
    }
    assert original[..a.Length] == original;
    var j := 0;
    while j < a.Length
      invariant 0 <= j <= a.Length && |sorted| == a.Length
      invariant a[..j] == sorted[..j]
    {
      a[j] := sorted[j];
      j := j + 1;
      assert a[..j] == sorted[..j];
    }
    assert a[..] == sorted;
  }
}
