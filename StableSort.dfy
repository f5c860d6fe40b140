/**
 * The pieces of JavaScript's array library that the core relies on, on sequences:
 * `Array.prototype.sort` with a numeric comparator `(a, b) => key(b) - key(a)`,
 * which is stable since ECMAScript 2019; `slice(0, n)`; and counting with a filter.
 *
 * The sort is an insertion sort. Its contract says it returns a permutation of the
 * input that is non-increasing under the key and keeps the relative order of
 * elements with equal keys; `StableSortUnique` shows that these properties pin the
 * result down, so every stable sort (V8's TimSort among them) returns exactly it.
 */
module StableSort {

  /** Non-increasing under `key`: the order a comparator `(a, b) => key(b) - key(a)` asks for. */
  predicate SortedDesc<T>(s: seq<T>, key: T -> int) {
    forall i, j :: 0 <= i < j < |s| ==> key(s[i]) >= key(s[j])
  }

  /** Strictly increasing integers. */
  predicate StrictlyAscending(s: seq<int>) {
    forall i, j :: 0 <= i < j < |s| ==> s[i] < s[j]
  }

  /** The subsequence of the elements whose key is `k`, in their order in `s`. */
  function WithKey<T>(s: seq<T>, key: T -> int, k: int): seq<T> {
    if s == [] then [] else (if key(s[0]) == k then [s[0]] else []) + WithKey(s[1..], key, k)
  }

  /** A stable sort of `s`: sorted, and for every key the same elements in the same order. */
  ghost predicate IsStableSortOf<T>(r: seq<T>, s: seq<T>, key: T -> int) {
    SortedDesc(r, key) && forall k :: WithKey(r, key, k) == WithKey(s, key, k)
  }

  /** Puts `x` in front of the first element whose key is not greater than its own. */
  function Insert<T>(x: T, s: seq<T>, key: T -> int): (r: seq<T>)
    ensures |r| == |s| + 1
    ensures multiset(r) == multiset(s) + multiset{x}
  {
    if s == [] || key(s[0]) <= key(x) then [x] + s
    else
      assert s == [s[0]] + s[1..];
      [s[0]] + Insert(x, s[1..], key)
  }

  lemma {:induction false} InsertSorted<T>(x: T, s: seq<T>, key: T -> int)
    requires SortedDesc(s, key)
    ensures SortedDesc(Insert(x, s, key), key)
  {
    if s == [] || key(s[0]) <= key(x) {
      var r := [x] + s;
      forall i, j | 0 <= i < j < |r| ensures key(r[i]) >= key(r[j]) {
        assert r[j] == s[j - 1];
        if i > 0 { assert r[i] == s[i - 1]; }
      }
    } else {
      var rest := Insert(x, s[1..], key);
      InsertSorted(x, s[1..], key);
      HeadBound(x, s, key);
      var r := [s[0]] + rest;
      forall i, j | 0 <= i < j < |r| ensures key(r[i]) >= key(r[j]) {
        assert r[j] == rest[j - 1];
        if i > 0 { assert r[i] == rest[i - 1]; }
      }
    }
  }

  /** What `Insert` places after the head of a sorted `s` does not outrank the head. */
  lemma HeadBound<T>(x: T, s: seq<T>, key: T -> int)
    requires s != [] && key(s[0]) > key(x) && SortedDesc(s, key)
    ensures forall y :: y in Insert(x, s[1..], key) ==> key(y) <= key(s[0])
  {
    var t := s[1..];
    forall y | y in Insert(x, t, key) ensures key(y) <= key(s[0]) {
      assert y in multiset(Insert(x, t, key));
      if y != x {
        assert y in multiset(t);
        var m :| 0 <= m < |t| && t[m] == y;
        assert s[m + 1] == y;
      }
    }
  }

  /** The stable sort of `s`, non-increasing under `key`. */
  function SortDesc<T>(s: seq<T>, key: T -> int): (r: seq<T>)
    ensures |r| == |s|
    ensures multiset(r) == multiset(s)
    ensures SortedDesc(r, key)
  {
    if s == [] then []
    else
      assert s == [s[0]] + s[1..];
      var sortedRest := SortDesc(s[1..], key);
      InsertSorted(s[0], sortedRest, key);
      Insert(s[0], sortedRest, key)
  }

  /** `s.slice(0, n)`: a negative `n` counts back from the end. */
  function Take<T>(s: seq<T>, n: int): (r: seq<T>)
    ensures |r| == if n >= 0 then (if n <= |s| then n else |s|) else (if |s| + n >= 0 then |s| + n else 0)
    ensures r == s[..|r|]
  {
    var end := if n >= 0 then (if n <= |s| then n else |s|) else (if |s| + n >= 0 then |s| + n else 0);
    s[..end]
  }

  /** The number of elements satisfying `p` (`s.filter(p).length`). */
  function Count<T>(s: seq<T>, p: T -> bool): (n: nat)
    ensures n <= |s|
  {
    if s == [] then 0 else (if p(s[0]) then 1 else 0) + Count(s[1..], p)
  }

  // ---------------------------------------------------------------------------
  // Subsequences by key

  lemma {:induction false} WithKeyAppend<T>(a: seq<T>, b: seq<T>, key: T -> int, k: int)
    ensures WithKey(a + b, key, k) == WithKey(a, key, k) + WithKey(b, key, k)
  {
    if a == [] {
      assert a + b == b;
    } else {
      assert (a + b)[0] == a[0];
      assert (a + b)[1..] == a[1..] + b;
      WithKeyAppend(a[1..], b, key, k);
      var h := if key(a[0]) == k then [a[0]] else [];
      var x, y := WithKey(a[1..], key, k), WithKey(b, key, k);
      assert WithKey(a + b, key, k) == h + (x + y);
      assert WithKey(a, key, k) == h + x;
      assert h + (x + y) == (h + x) + y;
    }
  }

  lemma {:induction false} WithKeyMembers<T>(s: seq<T>, key: T -> int, k: int)
    ensures forall y :: y in WithKey(s, key, k) <==> y in s && key(y) == k
  {
    if s != [] {
      WithKeyMembers(s[1..], key, k);
      assert s == [s[0]] + s[1..];
    }
  }

  lemma WithKeyOfHead<T>(s: seq<T>, key: T -> int)
    requires s != []
    ensures WithKey(s, key, key(s[0])) != [] && WithKey(s, key, key(s[0]))[0] == s[0]
  {
  }

  lemma {:induction false} InsertWithKey<T>(x: T, s: seq<T>, key: T -> int, k: int)
    ensures WithKey(Insert(x, s, key), key, k) == WithKey([x] + s, key, k)
  {
    var xs := [x] + s;
    assert xs[0] == x && xs[1..] == s;
    if s != [] && key(s[0]) > key(x) {
      var head, tail := s[0], s[1..];
      InsertWithKey(x, tail, key, k);
      var ins := Insert(x, tail, key);
      var r := [head] + ins;
      assert r[0] == head && r[1..] == ins;
      var xt := [x] + tail;
      assert xt[0] == x && xt[1..] == tail;
      var w := WithKey(tail, key, k);
      // at most one of `x` and `head` has the key `k`, because key(x) < key(head)
      if key(head) == k {
        assert WithKey(ins, key, k) == w;
        assert WithKey(s, key, k) == [head] + w;
      } else if key(x) == k {
        assert WithKey(ins, key, k) == [x] + w;
        assert WithKey(s, key, k) == w;
      } else {
        assert WithKey(ins, key, k) == w;
        assert WithKey(s, key, k) == w;
      }
    }
  }

  /** `SortDesc` keeps, for every key, the elements with that key in their input order. */
  lemma {:induction false} SortDescIsStable<T>(s: seq<T>, key: T -> int)
    ensures IsStableSortOf(SortDesc(s, key), s, key)
  {
    if s != [] {
      var t := s[1..];
      SortDescIsStable(t, key);
      var st := SortDesc(t, key);
      assert SortDesc(s, key) == Insert(s[0], st, key);
      var u := [s[0]] + st;
      assert u[0] == s[0] && u[1..] == st;
      forall k ensures WithKey(SortDesc(s, key), key, k) == WithKey(s, key, k) {
        InsertWithKey(s[0], st, key, k);
      }
    }
  }

  /** Two sorted sequences with the same elements per key start with the same element. */
  lemma HeadsEqual<T>(a: seq<T>, b: seq<T>, key: T -> int)
    requires a != [] && b != [] && SortedDesc(a, key) && SortedDesc(b, key)
    requires forall k :: WithKey(a, key, k) == WithKey(b, key, k)
    ensures a[0] == b[0]
  {
    var ka, kb := key(a[0]), key(b[0]);
    WithKeyOfHead(a, key);
    WithKeyOfHead(b, key);
    WithKeyMembers(b, key, ka);
    assert a[0] in WithKey(b, key, ka);
    var m :| 0 <= m < |b| && b[m] == a[0];
    assert kb >= ka by { if m > 0 { assert key(b[0]) >= key(b[m]); } }
    WithKeyMembers(a, key, kb);
    assert b[0] in WithKey(a, key, kb);
    var p :| 0 <= p < |a| && a[p] == b[0];
    assert ka >= kb by { if p > 0 { assert key(a[0]) >= key(a[p]); } }
    assert WithKey(a, key, ka)[0] == WithKey(b, key, kb)[0];
  }

  /** Dropping a common first element keeps the per-key subsequences equal. */
  lemma TailsWithKey<T>(a: seq<T>, b: seq<T>, key: T -> int)
    requires a != [] && b != [] && a[0] == b[0]
    requires forall k :: WithKey(a, key, k) == WithKey(b, key, k)
    ensures forall k :: WithKey(a[1..], key, k) == WithKey(b[1..], key, k)
  {
    forall k ensures WithKey(a[1..], key, k) == WithKey(b[1..], key, k) {
      var h := if key(a[0]) == k then [a[0]] else [];
      var x, y := WithKey(a[1..], key, k), WithKey(b[1..], key, k);
      assert WithKey(a, key, k) == h + x;
      assert WithKey(b, key, k) == h + y;
      assert x == (h + x)[|h|..];
      assert y == (h + y)[|h|..];
    }
  }

  /** Stability and order determine a sort: two stable sorts of the same input are equal. */
  lemma {:induction false} StableSortUnique<T>(a: seq<T>, b: seq<T>, key: T -> int)
    requires SortedDesc(a, key) && SortedDesc(b, key)
    requires forall k :: WithKey(a, key, k) == WithKey(b, key, k)
    ensures a == b
  {
    if a == [] {
      if b != [] {
        WithKeyOfHead(b, key);
        assert false;
      }
    } else if b == [] {
      WithKeyOfHead(a, key);
      assert false;
    } else {
      HeadsEqual(a, b, key);
      TailsWithKey(a, b, key);
      StableSortUnique(a[1..], b[1..], key);
      assert a == [a[0]] + a[1..];
      assert b == [b[0]] + b[1..];
    }
  }

  /** Any stable sort of `s` is `SortDesc(s, key)`. */
  lemma StableSortIsSortDesc<T>(r: seq<T>, s: seq<T>, key: T -> int)
    requires IsStableSortOf(r, s, key)
    ensures r == SortDesc(s, key)
  {
    SortDescIsStable(s, key);
    StableSortUnique(r, SortDesc(s, key), key);
  }

  // ---------------------------------------------------------------------------
  // Ties and the top of a ranking

  /** Elements of `s` with equal keys are ordered by `tie`, strictly increasing. */
  predicate TiesOrderedBy<T>(s: seq<T>, key: T -> int, tie: T -> int) {
    forall i, j :: 0 <= i < j < |s| && key(s[i]) == key(s[j]) ==> tie(s[i]) < tie(s[j])
  }

  lemma {:induction false} InsertKeepsTies<T>(x: T, s: seq<T>, key: T -> int, tie: T -> int)
    requires TiesOrderedBy(s, key, tie)
    requires forall y :: y in s && key(y) == key(x) ==> tie(x) < tie(y)
    ensures TiesOrderedBy(Insert(x, s, key), key, tie)
  {
    if s == [] || key(s[0]) <= key(x) {
      TiesCons(x, s, key, tie);
    } else {
      var t := s[1..];
      TiesTail(s, key, tie);
      assert forall y :: y in t ==> y in s;
      InsertKeepsTies(x, t, key, tie);
      HeadTies(x, s, key, tie);
      TiesCons(s[0], Insert(x, t, key), key, tie);
    }
  }

  /** An element tied with no later element of lower tie-break keeps `s` ordered when put in front. */
  lemma TiesCons<T>(x: T, s: seq<T>, key: T -> int, tie: T -> int)
    requires TiesOrderedBy(s, key, tie)
    requires forall y :: y in s && key(y) == key(x) ==> tie(x) < tie(y)
    ensures TiesOrderedBy([x] + s, key, tie)
  {
    var r := [x] + s;
    forall i, j | 0 <= i < j < |r| && key(r[i]) == key(r[j]) ensures tie(r[i]) < tie(r[j]) {
      assert r[j] == s[j - 1];
      if i > 0 { assert r[i] == s[i - 1]; }
    }
  }

  lemma TiesTail<T>(s: seq<T>, key: T -> int, tie: T -> int)
    requires s != [] && TiesOrderedBy(s, key, tie)
    ensures TiesOrderedBy(s[1..], key, tie)
  {
    var t := s[1..];
    forall i, j | 0 <= i < j < |t| && key(t[i]) == key(t[j]) ensures tie(t[i]) < tie(t[j]) {
      assert t[i] == s[i + 1] && t[j] == s[j + 1];
    }
  }

  /** What `Insert` places after the head of `s` ties with the head only if it came from `s`. */
  lemma HeadTies<T>(x: T, s: seq<T>, key: T -> int, tie: T -> int)
    requires s != [] && key(s[0]) > key(x) && TiesOrderedBy(s, key, tie)
    ensures forall y :: y in Insert(x, s[1..], key) && key(y) == key(s[0]) ==> tie(s[0]) < tie(y)
  {
    var t := s[1..];
    forall y | y in Insert(x, t, key) && key(y) == key(s[0]) ensures tie(s[0]) < tie(y) {
      assert y in multiset(Insert(x, t, key));
      assert y in multiset(t);
      var m :| 0 <= m < |t| && t[m] == y;
      assert s[m + 1] == y;
    }
  }

  /** Sorting keeps a tie-break order that the input already has. */
  lemma {:induction false} SortDescKeepsTies<T>(s: seq<T>, key: T -> int, tie: T -> int)
    requires TiesOrderedBy(s, key, tie)
    ensures TiesOrderedBy(SortDesc(s, key), key, tie)
  {
    if s != [] {
      var t := s[1..];
      TiesTail(s, key, tie);
      SortDescKeepsTies(t, key, tie);
      forall y | y in SortDesc(t, key) && key(y) == key(s[0]) ensures tie(s[0]) < tie(y) {
        assert y in multiset(SortDesc(t, key));
        var m :| 0 <= m < |t| && t[m] == y;
        assert s[m + 1] == y;
      }
      InsertKeepsTies(s[0], SortDesc(t, key), key, tie);
    }
  }

  /** Truncating a sorted permutation keeps the highest keys: nothing dropped outranks anything kept. */
  lemma TakeOfSortedIsTop<T>(s: seq<T>, key: T -> int, n: int)
    ensures var kept := Take(SortDesc(s, key), n);
      forall x, y :: x in multiset(s) - multiset(kept) && y in kept ==> key(x) <= key(y)
  {
    var r := SortDesc(s, key);
    var kept := Take(r, n);
    var rest := r[|kept|..];
    assert r == kept + rest;
    assert multiset(s) == multiset(kept) + multiset(rest);
    forall x, y | x in multiset(s) - multiset(kept) && y in kept ensures key(x) <= key(y) {
      assert x in multiset(rest);
      var j :| 0 <= j < |rest| && rest[j] == x;
      var i :| 0 <= i < |kept| && kept[i] == y;
      assert r[|kept| + j] == x && r[i] == y;
    }
  }

  /** The keys of `s` are pairwise different. */
  predicate DistinctKeys<T>(s: seq<T>, key: T -> int) {
    forall i, j :: 0 <= i < j < |s| ==> key(s[i]) != key(s[j])
  }

  /** With pairwise different keys no element occurs twice. */
  lemma {:induction false} DistinctKeysOnce<T>(s: seq<T>, key: T -> int, x: T)
    requires DistinctKeys(s, key)
    ensures multiset(s)[x] <= 1
  {
    if s != [] {
      var t := s[1..];
      assert DistinctKeys(t, key) by {
        forall i, j | 0 <= i < j < |t| ensures key(t[i]) != key(t[j]) {
          assert t[i] == s[i + 1] && t[j] == s[j + 1];
        }
      }
      DistinctKeysOnce(t, key, x);
      assert s == [s[0]] + t;
    }
  }

  /** An element at two positions occurs at least twice. */
  lemma TwiceInMultiset<T>(r: seq<T>, i: int, j: int)
    requires 0 <= i < j < |r| && r[i] == r[j]
    ensures multiset(r)[r[i]] >= 2
  {
    assert r == r[..i] + [r[i]] + r[i + 1..j] + [r[j]] + r[j + 1..];
  }

  /** A list drawn on the elements of a list with pairwise different keys has pairwise different keys. */
  lemma SubMultisetDistinctKeys<T>(r: seq<T>, s: seq<T>, key: T -> int)
    requires multiset(r) <= multiset(s) && DistinctKeys(s, key)
    ensures DistinctKeys(r, key)
  {
    forall i, j | 0 <= i < j < |r| ensures key(r[i]) != key(r[j]) {
      DistinctKeysOnce(s, key, r[i]);
      if r[i] == r[j] {
        TwiceInMultiset(r, i, j);
        assert false;
      }
      assert r[i] in multiset(s) && r[j] in multiset(s);
      var a :| 0 <= a < |s| && s[a] == r[i];
      var b :| 0 <= b < |s| && s[b] == r[j];
    }
  }

  // ---------------------------------------------------------------------------
  // Counting

  lemma {:induction false} CountAppend<T>(a: seq<T>, b: seq<T>, p: T -> bool)
    ensures Count(a + b, p) == Count(a, p) + Count(b, p)
  {
    if a == [] {
      assert a + b == b;
    } else {
      assert (a + b)[0] == a[0];
      assert (a + b)[1..] == a[1..] + b;
      CountAppend(a[1..], b, p);
    }
  }

  /** Removing the element at `m` keeps the other elements. */
  lemma MultisetRemove<T>(b: seq<T>, m: int)
    requires 0 <= m < |b|
    ensures multiset(b[..m] + b[m + 1..]) == multiset(b) - multiset{b[m]}
  {
    assert b == b[..m] + [b[m]] + b[m + 1..];
  }

  /** Removing the element at `m` lowers the count by the element's own contribution. */
  lemma {:induction false} CountRemove<T>(b: seq<T>, m: int, p: T -> bool)
    requires 0 <= m < |b|
    ensures Count(b, p) == (if p(b[m]) then 1 else 0) + Count(b[..m] + b[m + 1..], p)
  {
    if m == 0 {
      assert b[..0] + b[1..] == b[1..];
    } else {
      var t := b[1..];
      CountRemove(t, m - 1, p);
      var rest := t[..m - 1] + t[m..];
      var r := [b[0]] + rest;
      assert b[..m] + b[m + 1..] == r;
      assert r[0] == b[0] && r[1..] == rest;
      assert Count(r, p) == (if p(b[0]) then 1 else 0) + Count(rest, p);
      assert t[m - 1] == b[m];
    }
  }

  /** A count depends only on the multiset of the elements, not on their order. */
  lemma {:induction false} CountPermutation<T>(a: seq<T>, b: seq<T>, p: T -> bool)
    requires multiset(a) == multiset(b)
    ensures Count(a, p) == Count(b, p)
  {
    if a != [] {
      assert a[0] in multiset(b);
      var m :| 0 <= m < |b| && b[m] == a[0];
      MultisetRemove(b, m);
      assert a == [a[0]] + a[1..];
      assert multiset(a[1..]) == multiset(a) - multiset{a[0]};
      CountPermutation(a[1..], b[..m] + b[m + 1..], p);
      CountRemove(b, m, p);
    }
  }
}
