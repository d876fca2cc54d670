/**
 * Collection operations shared by the server and the client code: Eloquent's
 * `->where(...)->first()`, `Array.prototype.filter`, `reduce`/`sum`,
 * `Array.prototype.map` with a conditional update, and a stable sort by an
 * integer key (`Array.prototype.sort`, `->orderBy(...)`).
 */
module Seqs {
  import opened Wrappers

  /** The position of the first element satisfying `p`. */
  function FirstIndex<T>(s: seq<T>, p: T -> bool): (r: Option<nat>)
    ensures r.Some? ==> r.value < |s| && p(s[r.value])
    ensures r.Some? ==> forall j :: 0 <= j < r.value ==> !p(s[j])
    ensures r.None? ==> forall j :: 0 <= j < |s| ==> !p(s[j])
  {
    if |s| == 0 then None
    else if p(s[0]) then Some(0)
    else match FirstIndex(s[1..], p)
      case None => None
      case Some(k) => Some(k + 1)
  }

  /** Some element satisfies `p` exactly when a first one exists. */
  lemma FirstIndexSomeIff<T>(s: seq<T>, p: T -> bool, i: nat)
    requires i < |s| && p(s[i])
    ensures FirstIndex(s, p).Some? && FirstIndex(s, p).value <= i
  {
  }

  /** Searches agree on sequences that agree position by position on the searched property. */
  lemma FirstIndexAgree<T, U>(s: seq<T>, p: T -> bool, t: seq<U>, q: U -> bool)
    requires |s| == |t|
    requires forall i :: 0 <= i < |s| ==> p(s[i]) == q(t[i])
    ensures FirstIndex(s, p) == FirstIndex(t, q)
  {
    var a, b := FirstIndex(s, p), FirstIndex(t, q);
    if a.Some? && b.Some? {
      assert !(a.value < b.value) && !(b.value < a.value);
    }
  }

  /** `Array.prototype.filter`: the elements satisfying `p`, in order. */
  function Filter<T>(s: seq<T>, p: T -> bool): (r: seq<T>)
    ensures |r| <= |s|
  {
    if |s| == 0 then []
    else (if p(s[0]) then [s[0]] else []) + Filter(s[1..], p)
  }

  /** The filter keeps exactly the elements satisfying `p`, each as often as it occurs. */
  lemma {:induction false} FilterContents<T(!new)>(s: seq<T>, p: T -> bool)
    ensures forall x :: x in Filter(s, p) <==> x in s && p(x)
    ensures forall x :: multiset(Filter(s, p))[x] == if p(x) then multiset(s)[x] else 0
  {
    if |s| > 0 {
      FilterContents(s[1..], p);
      assert s == [s[0]] + s[1..];
    }
  }

  /** `r` is `s` with some elements dropped: what is left keeps its order. */
  predicate Subsequence<T(==)>(r: seq<T>, s: seq<T>)
    decreases |s|
  {
    if |s| == 0 then |r| == 0
    else Subsequence(r, s[1..]) || (|r| > 0 && r[0] == s[0] && Subsequence(r[1..], s[1..]))
  }

  /** The filter keeps the order of the elements it keeps. */
  lemma {:induction false} FilterSubsequence<T>(s: seq<T>, p: T -> bool)
    ensures Subsequence(Filter(s, p), s)
  {
    if |s| > 0 {
      FilterSubsequence(s[1..], p);
      var r := Filter(s, p);
      if p(s[0]) {
        assert r[0] == s[0] && r[1..] == Filter(s[1..], p);
      } else {
        assert r == Filter(s[1..], p);
      }
    }
  }

  /** Filtering distributes over concatenation. */
  lemma {:induction false} FilterAppend<T>(a: seq<T>, b: seq<T>, p: T -> bool)
    ensures Filter(a + b, p) == Filter(a, p) + Filter(b, p)
  {
    if |a| == 0 {
      assert a + b == b;
    } else {
      var h := if p(a[0]) then [a[0]] else [];
      assert (a + b)[0] == a[0];
      assert (a + b)[1..] == a[1..] + b;
      calc {
        Filter(a + b, p);
        h + Filter(a[1..] + b, p);
        { FilterAppend(a[1..], b, p); }
        h + (Filter(a[1..], p) + Filter(b, p));
        (h + Filter(a[1..], p)) + Filter(b, p);
        Filter(a, p) + Filter(b, p);
      }
    }
  }

  /** Filtering with a predicate no element satisfies leaves nothing. */
  lemma {:induction false} FilterNone<T>(s: seq<T>, p: T -> bool)
    requires forall i :: 0 <= i < |s| ==> !p(s[i])
    ensures Filter(s, p) == []
  {
    if |s| > 0 {
      FilterNone(s[1..], p);
    }
  }

  /** Filtering with a predicate every element satisfies changes nothing. */
  lemma {:induction false} FilterAll<T(!new)>(s: seq<T>, p: T -> bool)
    requires forall i :: 0 <= i < |s| ==> p(s[i])
    ensures Filter(s, p) == s
  {
    if |s| > 0 {
      FilterAll(s[1..], p);
    }
  }

  /** Filtering twice with the same predicate is filtering once. */
  lemma {:induction false} FilterIdempotent<T(!new)>(s: seq<T>, p: T -> bool)
    ensures Filter(Filter(s, p), p) == Filter(s, p)
  {
    var r := Filter(s, p);
    FilterContents(s, p);
    forall i | 0 <= i < |r|
      ensures p(r[i])
    {
      assert r[i] in r;
    }
    FilterAll(r, p);
  }

  /** Filters with predicates that agree on every element are the same filter. */
  lemma {:induction false} FilterAgree<T>(s: seq<T>, p: T -> bool, q: T -> bool)
    requires forall i :: 0 <= i < |s| ==> p(s[i]) == q(s[i])
    ensures Filter(s, p) == Filter(s, q)
  {
    if |s| > 0 {
      FilterAgree(s[1..], p, q);
    }
  }

  /** The sum of `f` over the elements: `collect(...)->sum(f)`, `reduce((a, x) => a + f(x), 0)`. */
  function SumBy<T>(s: seq<T>, f: T -> int): int {
    if |s| == 0 then 0 else SumBy(s[..|s| - 1], f) + f(s[|s| - 1])
  }

  /** A sum over a concatenation is the sum of the sums. */
  lemma {:induction false} SumByAppend<T>(a: seq<T>, b: seq<T>, f: T -> int)
    ensures SumBy(a + b, f) == SumBy(a, f) + SumBy(b, f)
  {
    if |b| > 0 {
      SumByAppend(a, b[..|b| - 1], f);
      assert (a + b)[..|a + b| - 1] == a + b[..|b| - 1];
    } else {
      assert a + b == a;
    }
  }

  /** Sums agree when the summands agree position by position. */
  lemma {:induction false} SumByPointwise<T, U>(s: seq<T>, f: T -> int, t: seq<U>, g: U -> int)
    requires |s| == |t|
    requires forall i :: 0 <= i < |s| ==> f(s[i]) == g(t[i])
    ensures SumBy(s, f) == SumBy(t, g)
  {
    if |s| > 0 {
      SumByPointwise(s[..|s| - 1], f, t[..|t| - 1], g);
    }
  }

  /** Dropping the element at `i` takes its summand out of the sum. */
  lemma {:induction false} SumByRemove<T>(s: seq<T>, i: nat, f: T -> int)
    requires i < |s|
    ensures SumBy(s[..i] + s[i + 1..], f) == SumBy(s, f) - f(s[i])
  {
    var a, x, b := s[..i], s[i], s[i + 1..];
    assert s == (a + [x]) + b;
    assert [x][..0] == [];
    assert SumBy([x], f) == f(x);
    SumByAppend(a + [x], b, f);
    SumByAppend(a, [x], f);
    SumByAppend(a, b, f);
  }

  /** Replacing the element at `i` replaces its summand. */
  lemma {:induction false} SumByUpdate<T>(s: seq<T>, i: nat, x: T, f: T -> int)
    requires i < |s|
    ensures SumBy(s[i := x], f) == SumBy(s, f) - f(s[i]) + f(x)
  {
    SumByRemove(s, i, f);
    SumByRemove(s[i := x], i, f);
    assert s[i := x][..i] + s[i := x][i + 1..] == s[..i] + s[i + 1..];
  }

  /** Filtering out the one element that fails `p` is deleting it. */
  lemma {:induction false} FilterDropsOne<T(!new)>(s: seq<T>, p: T -> bool, i: nat)
    requires i < |s| && !p(s[i])
    requires forall j :: 0 <= j < |s| && j != i ==> p(s[j])
    ensures Filter(s, p) == s[..i] + s[i + 1..]
  {
    var t := s[1..];
    if i == 0 {
      assert Filter(s, p) == Filter(t, p);
      assert forall j :: 0 <= j < |t| ==> p(t[j]) by {
        forall j | 0 <= j < |t| ensures p(t[j]) { assert t[j] == s[j + 1]; }
      }
      FilterAll(t, p);
    } else {
      assert p(s[0]);
      assert Filter(s, p) == [s[0]] + Filter(t, p);
      assert !p(t[i - 1]) && forall j :: 0 <= j < |t| && j != i - 1 ==> p(t[j]) by {
        forall j | 0 <= j < |t| && j != i - 1 ensures p(t[j]) { assert t[j] == s[j + 1]; }
      }
      FilterDropsOne(t, p, i - 1);
      assert [s[0]] + (t[..i - 1] + t[i..]) == s[..i] + s[i + 1..];
    }
  }

  /** `xs.map(x => p(x) ? f(x) : x)`: rewrite exactly the elements satisfying `p`. */
  function UpdateWhere<T>(s: seq<T>, p: T -> bool, f: T -> T): (r: seq<T>)
    ensures |r| == |s|
    ensures forall i :: 0 <= i < |s| ==> r[i] == if p(s[i]) then f(s[i]) else s[i]
  {
    seq(|s|, i requires 0 <= i < |s| => if p(s[i]) then f(s[i]) else s[i])
  }

  // ---------------------------------------------------------------------------
  // Stable sort by an integer key

  /** `a` may precede `b`: keys non-decreasing (ascending) or non-increasing (descending). */
  predicate InOrder<T>(key: T -> int, descending: bool, a: T, b: T) {
    if descending then key(a) >= key(b) else key(a) <= key(b)
  }

  predicate SortedBy<T>(s: seq<T>, key: T -> int, descending: bool) {
    forall i, j :: 0 <= i < j < |s| ==> InOrder(key, descending, s[i], s[j])
  }

  /** Where `x` goes in sorted `s`: after every element that may precede it, so equal keys keep arrival order. */
  function InsertPos<T>(s: seq<T>, x: T, key: T -> int, descending: bool): (k: nat)
    ensures k <= |s|
    ensures forall i :: 0 <= i < k ==> InOrder(key, descending, s[i], x)
    ensures k < |s| ==> !InOrder(key, descending, s[k], x)
  {
    if |s| == 0 || !InOrder(key, descending, s[0], x) then 0
    else 1 + InsertPos(s[1..], x, key, descending)
  }

  /** Placing `x` at its insertion position keeps the sequence sorted. */
  lemma InsertSorted<T>(s: seq<T>, x: T, key: T -> int, descending: bool)
    requires SortedBy(s, key, descending)
    ensures SortedBy(var k := InsertPos(s, x, key, descending); s[..k] + [x] + s[k..], key, descending)
  {
    var k := InsertPos(s, x, key, descending);
    var r := s[..k] + [x] + s[k..];
    assert forall i :: 0 <= i < k ==> r[i] == s[i];
    assert r[k] == x;
    assert forall i :: k < i < |r| ==> r[i] == s[i - 1];
    forall j | k <= j < |s|
      ensures InOrder(key, descending, x, s[j])
    {
      assert InOrder(key, descending, s[k], s[j]);
    }
  }

  function Insert<T>(s: seq<T>, x: T, key: T -> int, descending: bool): (r: seq<T>)
    requires SortedBy(s, key, descending)
    ensures SortedBy(r, key, descending)
    ensures multiset(r) == multiset(s) + multiset{x}
  {
    var k := InsertPos(s, x, key, descending);
    assert s == s[..k] + s[k..];
    InsertSorted(s, x, key, descending);
    s[..k] + [x] + s[k..]
  }

  /** A stable insertion sort: the permutation of `s` ordered by `key`. */
  function SortBy<T>(s: seq<T>, key: T -> int, descending: bool): (r: seq<T>)
    ensures SortedBy(r, key, descending)
    ensures multiset(r) == multiset(s)
  {
    if |s| == 0 then []
    else
      assert s == s[..|s| - 1] + [s[|s| - 1]];
      Insert(SortBy(s[..|s| - 1], key, descending), s[|s| - 1], key, descending)
  }

  /** The elements of `s` whose key is `k`, in their order in `s`. */
  function WithKey<T>(s: seq<T>, key: T -> int, k: int): seq<T> {
    Filter(s, (x: T) => key(x) == k)
  }

  lemma WithKeyAppend<T>(a: seq<T>, b: seq<T>, key: T -> int, k: int)
    ensures WithKey(a + b, key, k) == WithKey(a, key, k) + WithKey(b, key, k)
  {
    FilterAppend(a, b, (x: T) => key(x) == k);
  }

  /** The one-element sequence keeps its element exactly when the key matches. */
  lemma WithKeySingleton<T>(x: T, key: T -> int, k: int)
    ensures WithKey([x], key, k) == if key(x) == k then [x] else []
  {
    assert [x][1..] == [];
  }

  /** A tail none of whose keys is `key(x)` contributes nothing to `x`'s key. */
  lemma WithKeyNone<T>(s: seq<T>, x: T, key: T -> int, k: int)
    requires forall j :: 0 <= j < |s| ==> key(s[j]) != key(x)
    requires key(x) == k
    ensures WithKey(s, key, k) == []
  {
    FilterNone(s, (y: T) => key(y) == k);
  }

  /** In a sorted sequence, nothing from `x`'s insertion position on has `x`'s key. */
  lemma AfterInsertPos<T>(s: seq<T>, x: T, key: T -> int, descending: bool)
    requires SortedBy(s, key, descending)
    ensures var n := InsertPos(s, x, key, descending);
      forall j :: n <= j < |s| ==> key(s[j]) != key(x)
  {
    var n := InsertPos(s, x, key, descending);
    forall j | n <= j < |s|
      ensures key(s[j]) != key(x)
    {
      if j > n {
        assert InOrder(key, descending, s[n], s[j]);
      }
    }
  }

  lemma WithKeySplice<T>(lo: seq<T>, x: T, hi: seq<T>, key: T -> int, k: int)
    ensures WithKey(lo + [x] + hi, key, k) == WithKey(lo, key, k) + WithKey([x], key, k) + WithKey(hi, key, k)
  {
    WithKeyAppend(lo + [x], hi, key, k);
    WithKeyAppend(lo, [x], key, k);
  }

  /** Placing `x` before a tail without its key makes it the last element with that key. */
  lemma SpliceStable<T>(s: seq<T>, n: nat, x: T, key: T -> int, k: int)
    requires n <= |s|
    requires forall j :: n <= j < |s| ==> key(s[j]) != key(x)
    ensures WithKey(s[..n] + [x] + s[n..], key, k) == WithKey(s, key, k) + (if key(x) == k then [x] else [])
  {
    var lo, hi := s[..n], s[n..];
    WithKeySplice(lo, x, hi, key, k);
    assert s == lo + hi;
    WithKeyAppend(lo, hi, key, k);
    WithKeySingleton(x, key, k);
    if key(x) == k {
      WithKeyNone(hi, x, key, k);
    }
  }

  /** One insertion is stable: `x` becomes the last of the elements that share its key. */
  lemma InsertStable<T>(s: seq<T>, x: T, key: T -> int, descending: bool, k: int)
    requires SortedBy(s, key, descending)
    ensures WithKey(Insert(s, x, key, descending), key, k) == WithKey(s, key, k) + (if key(x) == k then [x] else [])
  {
    var n := InsertPos(s, x, key, descending);
    AfterInsertPos(s, x, key, descending);
    SpliceStable(s, n, x, key, k);
  }

  /** One step of the sort: the last element is inserted into the sorted prefix, behind its equals. */
  lemma SortByStep<T>(s: seq<T>, key: T -> int, descending: bool, k: int)
    requires |s| > 0
    ensures WithKey(SortBy(s, key, descending), key, k)
         == WithKey(SortBy(s[..|s| - 1], key, descending), key, k) + WithKey([s[|s| - 1]], key, k)
  {
    var sorted := SortBy(s[..|s| - 1], key, descending);
    assert SortBy(s, key, descending) == Insert(sorted, s[|s| - 1], key, descending);
    InsertStable(sorted, s[|s| - 1], key, descending, k);
    WithKeySingleton(s[|s| - 1], key, k);
  }

  /** The sort is stable: the elements sharing a key keep their relative order. */
  lemma {:induction false} SortByStable<T>(s: seq<T>, key: T -> int, descending: bool, k: int)
    ensures WithKey(SortBy(s, key, descending), key, k) == WithKey(s, key, k)
  {
    if |s| > 0 {
      var init := s[..|s| - 1];
      SortByStep(s, key, descending, k);
      SortByStable(init, key, descending, k);
      WithKeyAppend(init, [s[|s| - 1]], key, k);
      assert s == init + [s[|s| - 1]];
    }
  }

  /** Stability for every key value at once. */
  lemma SortByStableAll<T>(s: seq<T>, key: T -> int, descending: bool)
    ensures forall k :: WithKey(SortBy(s, key, descending), key, k) == WithKey(s, key, k)
  {
    forall k ensures WithKey(SortBy(s, key, descending), key, k) == WithKey(s, key, k) {
      SortByStable(s, key, descending, k);
    }
  }
}
