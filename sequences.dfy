/** Sequence operations shared by the components: JavaScript's `Array.prototype.filter`,
    first-occurrence de-duplication, the stable `sort` by a numeric key, index-stride
    selection and `d3.max`/`d3.min`. */
module Sequences {
  import opened Wrappers

  // ---------------------------------------------------------------------------
  // filter
  // ---------------------------------------------------------------------------

  /** The elements of `s` that satisfy `p`, in their original order. */
  function Filter<T>(s: seq<T>, p: T -> bool): (r: seq<T>)
    ensures |r| <= |s|
    ensures forall x :: x in r ==> x in s && p(x)
    decreases |s|
  {
    if |s| == 0 then []
    else (if p(s[0]) then [s[0]] else []) + Filter(s[1..], p)
  }

  /** An element is kept exactly when it is in the input and satisfies the predicate. */
  lemma {:induction false} FilterMembership<T>(s: seq<T>, p: T -> bool, x: T)
    ensures x in Filter(s, p) <==> x in s && p(x)
    decreases |s|
  {
    if |s| > 0 {
      FilterMembership(s[1..], p, x);
      assert s == [s[0]] + s[1..];
    }
  }

  /** Filtering distributes over concatenation: together with `Filter([x], p)` being `[x]` or
      `[]`, this says the result keeps the input's relative order. */
  lemma {:induction false} FilterAppend<T>(a: seq<T>, b: seq<T>, p: T -> bool)
    ensures Filter(a + b, p) == Filter(a, p) + Filter(b, p)
    decreases |a|
  {
    if |a| > 0 {
      assert (a + b)[1..] == a[1..] + b;
      FilterAppend(a[1..], b, p);
    } else {
      assert a + b == b;
    }
  }

  /** Two predicates that agree on the elements give the same result. */
  lemma {:induction false} FilterExtensional<T>(s: seq<T>, p: T -> bool, q: T -> bool)
    requires forall x :: x in s ==> p(x) == q(x)
    ensures Filter(s, p) == Filter(s, q)
    decreases |s|
  {
    if |s| > 0 {
      FilterExtensional(s[1..], p, q);
    }
  }

  /** A predicate and its negation split the input: every element lands in exactly one part. */
  lemma {:induction false} FilterPartition<T>(s: seq<T>, p: T -> bool, q: T -> bool)
    requires forall x :: q(x) == !p(x)
    ensures multiset(Filter(s, p)) + multiset(Filter(s, q)) == multiset(s)
    ensures |Filter(s, p)| + |Filter(s, q)| == |s|
    decreases |s|
  {
    if |s| > 0 {
      FilterPartition(s[1..], p, q);
      assert s == [s[0]] + s[1..];
    }
  }

  /** When every element satisfies the predicate, nothing is removed. */
  lemma {:induction false} FilterKeepsAll<T>(s: seq<T>, p: T -> bool)
    requires forall i :: 0 <= i < |s| ==> p(s[i])
    ensures Filter(s, p) == s
    decreases |s|
  {
    if |s| > 0 {
      FilterKeepsAll(s[1..], p);
      assert s == [s[0]] + s[1..];
    }
  }

  // ---------------------------------------------------------------------------
  // first-occurrence de-duplication (the reduce that pushes unseen keys)
  // ---------------------------------------------------------------------------

  /** Some element of `d` has key `k` (`acc.some(item => key(item) === k)`). */
  predicate KeyIn<T, K(==)>(d: seq<T>, key: T -> K, k: K) {
    exists i :: 0 <= i < |d| && key(d[i]) == k
  }

  /** Left fold over `s`: an element is appended unless an element with its key is already kept. */
  function Dedup<T, K(==)>(s: seq<T>, key: T -> K): (r: seq<T>)
    ensures |r| <= |s|
    decreases |s|
  {
    if |s| == 0 then []
    else
      var d := Dedup(s[..|s| - 1], key);
      if KeyIn(d, key, key(s[|s| - 1])) then d else d + [s[|s| - 1]]
  }

  /** The kept elements have pairwise distinct keys. */
  lemma {:induction false} DedupDistinct<T, K>(s: seq<T>, key: T -> K)
    ensures var r := Dedup(s, key);
      forall i, j :: 0 <= i < j < |r| ==> key(r[i]) != key(r[j])
    decreases |s|
  {
    if |s| > 0 {
      var init := s[..|s| - 1];
      DedupDistinct(init, key);
      var d := Dedup(init, key);
      assert forall i, j :: 0 <= i < j < |d| ==> key(d[i]) != key(d[j]) by {
        assert forall i, j :: 0 <= i < j < |Dedup(init, key)| ==>
          key(Dedup(init, key)[i]) != key(Dedup(init, key)[j]);
      }
      if !KeyIn(d, key, key(s[|s| - 1])) {
        var r := d + [s[|s| - 1]];
        forall i, j | 0 <= i < j < |r|
          ensures key(r[i]) != key(r[j])
        {
          if j == |d| {
            assert r[i] == d[i];
            assert r[j] == s[|s| - 1];
          } else {
            assert r[i] == d[i] && r[j] == d[j];
          }
        }
      }
    }
  }

  lemma KeyInSnoc<T, K>(d: seq<T>, x: T, key: T -> K, k: K)
    ensures KeyIn(d + [x], key, k) <==> KeyIn(d, key, k) || key(x) == k
  {
    if KeyIn(d, key, k) {
      var i :| 0 <= i < |d| && key(d[i]) == k;
      assert (d + [x])[i] == d[i];
    }
    if key(x) == k {
      assert (d + [x])[|d|] == x;
    }
    if KeyIn(d + [x], key, k) {
      var i :| 0 <= i < |d| + 1 && key((d + [x])[i]) == k;
      if i < |d| {
        assert (d + [x])[i] == d[i];
      }
    }
  }

  /** A key occurs in the output exactly when it occurs in the input. */
  lemma {:induction false} DedupKeys<T, K>(s: seq<T>, key: T -> K, k: K)
    ensures KeyIn(Dedup(s, key), key, k) <==> KeyIn(s, key, k)
    decreases |s|
  {
    if |s| > 0 {
      var init := s[..|s| - 1];
      var last := s[|s| - 1];
      assert s == init + [last];
      DedupKeys(init, key, k);
      KeyInSnoc(init, last, key, k);
      KeyInSnoc(Dedup(init, key), last, key, k);
      if KeyIn(Dedup(init, key), key, key(last)) && key(last) == k {
        assert KeyIn(Dedup(init, key), key, k);
      }
    }
  }

  /** The output is a subsequence of the input (`idx` is strictly increasing) and each kept
      element is the FIRST element of the input with its key. */
  lemma {:induction false} DedupFirstOccurrences<T, K>(s: seq<T>, key: T -> K)
    returns (idx: seq<nat>)
    ensures var r := Dedup(s, key);
      && |idx| == |r|
      && (forall j :: 0 <= j < |r| ==> idx[j] < |s| && r[j] == s[idx[j]])
      && (forall j :: 0 <= j < |r| ==> forall m :: 0 <= m < idx[j] ==> key(s[m]) != key(s[idx[j]]))
      && (forall i, j :: 0 <= i < j < |r| ==> idx[i] < idx[j])
    decreases |s|
  {
    if |s| == 0 {
      idx := [];
    } else {
      var init := s[..|s| - 1];
      var last := s[|s| - 1];
      var d := Dedup(init, key);
      var prev := DedupFirstOccurrences(init, key);
      if KeyIn(d, key, key(last)) {
        idx := prev;
      } else {
        idx := prev + [|s| - 1];
        forall m | 0 <= m < |s| - 1
          ensures key(s[m]) != key(last)
        {
          assert s[m] == init[m];
          if key(s[m]) == key(last) {
            DedupKeys(init, key, key(last));
            assert KeyIn(init, key, key(last));
          }
        }
      }
    }
  }

  // ---------------------------------------------------------------------------
  // stable sort by an integer key (`[...xs].sort((a, b) => key(a) - key(b))`, stable since ES2019)
  // ---------------------------------------------------------------------------

  /** Ascending by key. */
  predicate SortedBy<T>(s: seq<T>, key: T -> int) {
    forall i, j :: 0 <= i < j < |s| ==> key(s[i]) <= key(s[j])
  }

  /** Places `x` before the first element whose key is not smaller. */
  function Insert<T>(x: T, s: seq<T>, key: T -> int): (r: seq<T>)
    decreases |s|
  {
    if |s| == 0 then [x]
    else if key(x) <= key(s[0]) then [x] + s
    else [s[0]] + Insert(x, s[1..], key)
  }

  lemma {:induction false} InsertPermutes<T>(x: T, s: seq<T>, key: T -> int)
    ensures multiset(Insert(x, s, key)) == multiset(s) + multiset{x}
    decreases |s|
  {
    if |s| > 0 {
      assert s == [s[0]] + s[1..];
      if key(x) > key(s[0]) {
        InsertPermutes(x, s[1..], key);
      }
    }
  }

  lemma {:induction false} InsertLowerBound<T>(x: T, s: seq<T>, key: T -> int, b: int)
    requires forall i :: 0 <= i < |s| ==> b <= key(s[i])
    requires b <= key(x)
    ensures forall i :: 0 <= i < |Insert(x, s, key)| ==> b <= key(Insert(x, s, key)[i])
    decreases |s|
  {
    if |s| > 0 && key(x) > key(s[0]) {
      InsertLowerBound(x, s[1..], key, b);
    }
  }

  lemma {:induction false} InsertSorted<T>(x: T, s: seq<T>, key: T -> int)
    requires SortedBy(s, key)
    ensures SortedBy(Insert(x, s, key), key)
    decreases |s|
  {
    if |s| > 0 && key(x) > key(s[0]) {
      var t := Insert(x, s[1..], key);
      InsertSorted(x, s[1..], key);
      InsertLowerBound(x, s[1..], key, key(s[0]));
      var r := [s[0]] + t;
      assert r == Insert(x, s, key);
      forall i, j | 0 <= i < j < |r|
        ensures key(r[i]) <= key(r[j])
      {
        assert r[j] == t[j - 1];
        if i > 0 {
          assert r[i] == t[i - 1];
        }
      }
    }
  }

  /** Insertion sort; for a stable comparator its result is the unique stable sorted permutation. */
  function SortBy<T>(s: seq<T>, key: T -> int): (r: seq<T>)
    ensures SortedBy(r, key)
    ensures multiset(r) == multiset(s)
    ensures |r| == |s|
    decreases |s|
  {
    if |s| == 0 then []
    else
      var t := SortBy(s[1..], key);
      InsertSorted(s[0], t, key);
      InsertPermutes(s[0], t, key);
      assert s == [s[0]] + s[1..];
      Insert(s[0], t, key)
  }

  /** The first element of a non-empty sort is an element of the input with the least key. */
  lemma SortByFirstIsLeast<T>(s: seq<T>, key: T -> int)
    requires |s| > 0
    ensures SortBy(s, key)[0] in s
    ensures forall q :: q in s ==> key(SortBy(s, key)[0]) <= key(q)
  {
    var sorted := SortBy(s, key);
    assert sorted[0] in multiset(s);
    forall q | q in s
      ensures key(sorted[0]) <= key(q)
    {
      assert q in multiset(sorted);
      var i :| 0 <= i < |sorted| && sorted[i] == q;
      assert i == 0 || key(sorted[0]) <= key(sorted[i]);
    }
  }

  lemma {:induction false} InsertStable<T>(x: T, s: seq<T>, key: T -> int, p: T -> bool, k: int)
    requires forall y :: p(y) == (key(y) == k)
    ensures Filter(Insert(x, s, key), p) == (if p(x) then [x] else []) + Filter(s, p)
    decreases |s|
  {
    if |s| > 0 {
      if key(x) > key(s[0]) {
        var t := Insert(x, s[1..], key);
        InsertStable(x, s[1..], key, p, k);
        FilterAppend([s[0]], t, p);
        assert Filter([s[0]], p) == (if p(s[0]) then [s[0]] else []);
        assert s == [s[0]] + s[1..];
        FilterAppend([s[0]], s[1..], p);
      } else {
        FilterAppend([x], s, p);
        assert Filter([x], p) == (if p(x) then [x] else []);
      }
    } else {
      assert Filter([x], p) == (if p(x) then [x] else []);
    }
  }

  /** Elements with equal keys keep their relative order: for every key value, the elements
      having it appear in the output exactly as in the input. */
  lemma {:induction false} SortByStable<T>(s: seq<T>, key: T -> int, p: T -> bool, k: int)
    requires forall y :: p(y) == (key(y) == k)
    ensures Filter(SortBy(s, key), p) == Filter(s, p)
    decreases |s|
  {
    if |s| > 0 {
      SortByStable(s[1..], key, p, k);
      InsertStable(s[0], SortBy(s[1..], key), key, p, k);
    }
  }

  /** Filtering a sorted sequence leaves it sorted. */
  lemma {:induction false} FilterSortedBy<T>(s: seq<T>, p: T -> bool, key: T -> int)
    requires SortedBy(s, key)
    ensures SortedBy(Filter(s, p), key)
    decreases |s|
  {
    if |s| > 0 {
      var rest := Filter(s[1..], p);
      FilterSortedBy(s[1..], p, key);
      if p(s[0]) {
        var r := [s[0]] + rest;
        forall i, j | 0 <= i < j < |r|
          ensures key(r[i]) <= key(r[j])
        {
          assert r[j] == rest[j - 1] && r[j] in s[1..];
          if i > 0 {
            assert r[i] == rest[i - 1];
          }
        }
      }
    }
  }

  /** Strictly ascending by key: sorted, and no key repeats. */
  predicate StrictlyIncreasingBy<T>(s: seq<T>, key: T -> int) {
    forall i, j :: 0 <= i < j < |s| ==> key(s[i]) < key(s[j])
  }

  /** Filtering a strictly ascending sequence leaves it strictly ascending. */
  lemma {:induction false} FilterStrictlyIncreasing<T>(s: seq<T>, p: T -> bool, key: T -> int)
    requires StrictlyIncreasingBy(s, key)
    ensures StrictlyIncreasingBy(Filter(s, p), key)
    decreases |s|
  {
    if |s| > 0 {
      var rest := Filter(s[1..], p);
      FilterStrictlyIncreasing(s[1..], p, key);
      if p(s[0]) {
        var r := [s[0]] + rest;
        forall i, j | 0 <= i < j < |r|
          ensures key(r[i]) < key(r[j])
        {
          assert r[j] == rest[j - 1] && r[j] in s[1..];
          if i > 0 {
            assert r[i] == rest[i - 1];
          }
        }
      }
    }
  }

  /** A strictly ascending sequence is determined by its elements. */
  lemma {:induction false} StrictlyIncreasingUnique<T>(a: seq<T>, b: seq<T>, key: T -> int)
    requires StrictlyIncreasingBy(a, key) && StrictlyIncreasingBy(b, key)
    requires forall x :: x in a <==> x in b
    ensures a == b
    decreases |a|
  {
    assert |a| > 0 ==> a[0] in a && a[0] in b;
    assert |b| > 0 ==> b[0] in b && b[0] in a;
    if |a| > 0 && |b| > 0 {
      assert a[0] == b[0] by {
        assert b[0] in b && b[0] in a && a[0] in b;
      }
      forall x
        ensures x in a[1..] <==> x in b[1..]
      {
        if x in a[1..] {
          var j :| 1 <= j < |a| && a[j] == x;
          assert x != a[0];
          assert x in b;
        }
        if x in b[1..] {
          var j :| 1 <= j < |b| && b[j] == x;
          assert x != b[0];
          assert x in a;
        }
        assert x in a ==> x == a[0] || x in a[1..] by {
          assert a == [a[0]] + a[1..];
        }
        assert x in b ==> x == b[0] || x in b[1..] by {
          assert b == [b[0]] + b[1..];
        }
      }
      StrictlyIncreasingUnique(a[1..], b[1..], key);
      assert a == [a[0]] + a[1..] && b == [b[0]] + b[1..];
    }
  }

  // ---------------------------------------------------------------------------
  // index-stride selection
  // ---------------------------------------------------------------------------

  /** Every `k`th element, starting with the first. */
  function EveryNth<T>(s: seq<T>, k: nat): (r: seq<T>)
    requires k > 0
    decreases |s|
  {
    if |s| == 0 then [] else [s[0]] + EveryNth(s[if k <= |s| then k else |s|..], k)
  }

  /** `filter((_, index) => keep(index))` on `s`, whose first element has index `offset`. */
  function KeepIndices<T>(s: seq<T>, keep: int -> bool, offset: int): (r: seq<T>)
    decreases |s|
  {
    if |s| == 0 then []
    else (if keep(offset) then [s[0]] else []) + KeepIndices(s[1..], keep, offset + 1)
  }

  /** Dropping a run of `d` unkept indices does not change the selection. */
  lemma {:induction false} SkipUnkept<T>(s: seq<T>, keep: int -> bool, off: int, d: nat)
    requires d <= |s|
    requires forall i :: off <= i < off + d ==> !keep(i)
    ensures KeepIndices(s, keep, off) == KeepIndices(s[d..], keep, off + d)
    decreases d
  {
    if d > 0 {
      assert !keep(off);
      SkipUnkept(s[1..], keep, off + 1, d - 1);
      assert s[1..][d - 1..] == s[d..];
    }
  }

  lemma MulNonneg(a: int, b: int)
    requires a >= 0 && b >= 0
    ensures a * b >= 0
  {
  }

  lemma MulZeroBand(m: int, k: int)
    requires k > 0 && -k < m * k < k
    ensures m == 0
  {
    if m >= 1 {
      MulNonneg(m - 1, k);
    } else if m <= -1 {
      MulNonneg(-m - 1, k);
    }
  }

  /** Euclidean division is unique. */
  lemma ModUnique(x: int, k: int, a: int, b: int)
    requires k > 0 && x == a * k + b && 0 <= b < k
    ensures x % k == b && x / k == a
  {
    var q, r := x / k, x % k;
    assert x == q * k + r && 0 <= r < k;
    assert (a - q) * k == r - b;
    MulZeroBand(a - q, k);
  }

  lemma ModNextPeriod(off: int, k: int)
    requires k > 0 && off % k == 0
    ensures (off + k) % k == 0
  {
    var q := off / k;
    assert off == q * k;
    ModUnique(off + k, k, q + 1, 0);
  }

  lemma ModSmall(off: int, k: int, d: int)
    requires k > 0 && off % k == 0 && 0 <= d < k
    ensures (off + d) % k == d
  {
    var q := off / k;
    assert off == q * k;
    ModUnique(off + d, k, q, d);
  }

  /** Keeping the indices divisible by `k` is taking every `k`th element. */
  lemma {:induction false} KeepMultiples<T>(s: seq<T>, keep: int -> bool, k: nat, off: int)
    requires k > 0 && off % k == 0
    requires forall i :: keep(i) == (i % k == 0)
    ensures KeepIndices(s, keep, off) == EveryNth(s, k)
    decreases |s|
  {
    if |s| > 0 {
      var d := if k - 1 <= |s| - 1 then k - 1 else |s| - 1;
      forall i | off + 1 <= i < off + 1 + d
        ensures !keep(i)
      {
        ModSmall(off, k, i - off);
      }
      SkipUnkept(s[1..], keep, off + 1, d);
      assert s[1..][d..] == s[1 + d..];
      if k <= |s| {
        ModNextPeriod(off, k);
        KeepMultiples(s[k..], keep, k, off + k);
      } else {
        assert s[1 + d..] == [];
        assert s[|s|..] == [];
      }
    }
  }

  lemma MulSucc(c: int, k: int)
    ensures (c + 1) * k == c * k + k
  {
  }

  /** Every `k`th element of `s`: there are `ceil(|s| / k)` of them... */
  lemma {:induction false} EveryNthCount<T>(s: seq<T>, k: nat)
    requires k > 0
    ensures |s| <= |EveryNth(s, k)| * k < |s| + k
    decreases |s|
  {
    if |s| > 0 {
      if k <= |s| {
        var t := s[k..];
        EveryNthCount(t, k);
        MulSucc(|EveryNth(t, k)|, k);
      }
    }
  }

  /** ...and the `j`th of them is `s[j * k]`. */
  lemma {:induction false} EveryNthAt<T>(s: seq<T>, k: nat, j: nat)
    requires k > 0 && j < |EveryNth(s, k)|
    ensures j * k < |s| && EveryNth(s, k)[j] == s[j * k]
    decreases |s|
  {
    assert |s| > 0;
    var rest := s[if k <= |s| then k else |s|..];
    assert EveryNth(s, k) == [s[0]] + EveryNth(rest, k);
    assert k > |s| ==> rest == [];
    if j > 0 {
      EveryNthAt(rest, k, j - 1);
      MulSucc(j - 1, k);
      assert EveryNth(s, k)[j] == EveryNth(rest, k)[j - 1];
    }
  }

  // ---------------------------------------------------------------------------
  // d3.max / d3.min (no value of ours is null or NaN, so nothing is skipped)
  // ---------------------------------------------------------------------------

  /** `undefined` (`None`) for an empty input, otherwise the largest element. */
  function MaxOf(s: seq<real>): (r: Option<real>)
    ensures r.None? <==> |s| == 0
    ensures r.Some? ==> r.value in s && forall x :: x in s ==> x <= r.value
    decreases |s|
  {
    if |s| == 0 then None
    else
      var rest := MaxOf(s[1..]);
      assert s == [s[0]] + s[1..];
      if rest.None? || s[0] >= rest.value then Some(s[0]) else rest
  }

  /** `undefined` (`None`) for an empty input, otherwise the smallest element. */
  function MinOf(s: seq<real>): (r: Option<real>)
    ensures r.None? <==> |s| == 0
    ensures r.Some? ==> r.value in s && forall x :: x in s ==> r.value <= x
    decreases |s|
  {
    if |s| == 0 then None
    else
      var rest := MinOf(s[1..]);
      assert s == [s[0]] + s[1..];
      if rest.None? || s[0] <= rest.value then Some(s[0]) else rest
  }
}
