/** A stable sort by key, as Python's `sorted(xs, key=...)` and JavaScript's
    `Array.prototype.sort` provide, and what its result depends on. */
module Sorting {

  /** A strict total order: any two different keys are ordered one way round. */
  ghost predicate StrictTotal<K(!new)>(less: (K, K) -> bool) {
    && (forall a :: !less(a, a))
    && (forall a, b, c :: less(a, b) && less(b, c) ==> less(a, c))
    && (forall a, b :: a == b || less(a, b) || less(b, a))
  }

  function Insert<T, K>(x: T, ys: seq<T>, key: T -> K, less: (K, K) -> bool): seq<T> {
    if ys == [] || !less(key(ys[0]), key(x)) then [x] + ys
    else [ys[0]] + Insert(x, ys[1..], key, less)
  }

  function Sort<T, K>(xs: seq<T>, key: T -> K, less: (K, K) -> bool): seq<T> {
    if xs == [] then [] else Insert(xs[0], Sort(xs[1..], key, less), key, less)
  }

  /** The elements of xs that have key k, in their order in xs. */
  function WithKey<T, K(==)>(xs: seq<T>, key: T -> K, k: K): seq<T> {
    if xs == [] then []
    else (if key(xs[0]) == k then [xs[0]] else []) + WithKey(xs[1..], key, k)
  }

  /** No later element has a smaller key. */
  ghost predicate Sorted<T, K>(xs: seq<T>, key: T -> K, less: (K, K) -> bool) {
    forall i, j | 0 <= i < j < |xs| :: !less(key(xs[j]), key(xs[i]))
  }

  ghost predicate DistinctKeys<T, K>(xs: seq<T>, key: T -> K) {
    forall i, j | 0 <= i < j < |xs| :: key(xs[i]) != key(xs[j])
  }

  /** xs and ys list the elements of every single key in the same order. */
  ghost predicate SameByKey<T, K(!new)>(xs: seq<T>, ys: seq<T>, key: T -> K) {
    forall k :: WithKey(xs, key, k) == WithKey(ys, key, k)
  }

  lemma {:induction false} InsertPermutes<T, K>(x: T, ys: seq<T>, key: T -> K, less: (K, K) -> bool)
    ensures multiset(Insert(x, ys, key, less)) == multiset([x] + ys)
    ensures |Insert(x, ys, key, less)| == |ys| + 1
  {
    if ys != [] && less(key(ys[0]), key(x)) {
      InsertPermutes(x, ys[1..], key, less);
      assert ys == [ys[0]] + ys[1..];
    }
  }

  lemma {:induction false} SortPermutes<T, K>(xs: seq<T>, key: T -> K, less: (K, K) -> bool)
    ensures multiset(Sort(xs, key, less)) == multiset(xs)
    ensures |Sort(xs, key, less)| == |xs|
  {
    if xs != [] {
      SortPermutes(xs[1..], key, less);
      InsertPermutes(xs[0], Sort(xs[1..], key, less), key, less);
      assert xs == [xs[0]] + xs[1..];
    }
  }

  lemma {:induction false} InsertDistinct<T(!new), K>(x: T, ys: seq<T>, key: T -> K, less: (K, K) -> bool)
    requires DistinctKeys([x] + ys, key)
    ensures DistinctKeys(Insert(x, ys, key, less), key)
    ensures forall z :: z in Insert(x, ys, key, less) <==> z == x || z in ys
  {
    if ys != [] && less(key(ys[0]), key(x)) {
      var rest := ys[1..];
      assert ys == [ys[0]] + rest;
      DistinctTail(x, ys, key);
      InsertDistinct(x, rest, key, less);
      var tail := Insert(x, rest, key, less);
      forall i | 0 <= i < |tail| ensures key(tail[i]) != key(ys[0]) {
        assert tail[i] in tail;
        DistinctHead(x, ys, key, tail[i]);
      }
      DistinctCons(ys[0], tail, key);
    }
  }

  lemma DistinctCons<T, K>(x: T, ys: seq<T>, key: T -> K)
    requires DistinctKeys(ys, key) && forall i | 0 <= i < |ys| :: key(ys[i]) != key(x)
    ensures DistinctKeys([x] + ys, key)
  {
  }

  lemma DistinctTail<T, K>(x: T, ys: seq<T>, key: T -> K)
    requires ys != [] && DistinctKeys([x] + ys, key)
    ensures DistinctKeys([x] + ys[1..], key)
  {
    var all, some := [x] + ys, [x] + ys[1..];
    forall i, j | 0 <= i < j < |some| ensures key(some[i]) != key(some[j]) {
      assert some[j] == all[j + 1] && some[i] == all[if i == 0 then 0 else i + 1];
    }
  }

  lemma DistinctHead<T, K>(x: T, ys: seq<T>, key: T -> K, z: T)
    requires ys != [] && DistinctKeys([x] + ys, key) && (z == x || z in ys[1..])
    ensures key(z) != key(ys[0])
  {
    var all := [x] + ys;
    if z == x {
      assert key(all[0]) != key(all[1]);
    } else {
      var j :| 0 <= j < |ys[1..]| && ys[1..][j] == z;
      assert all[1] == ys[0] && all[j + 2] == z;
    }
  }

  /** Sorting keeps keys distinct, whatever the comparison. */
  lemma {:induction false} SortDistinct<T(!new), K>(xs: seq<T>, key: T -> K, less: (K, K) -> bool)
    requires DistinctKeys(xs, key)
    ensures DistinctKeys(Sort(xs, key, less), key)
    ensures forall z :: z in Sort(xs, key, less) <==> z in xs
  {
    if xs != [] {
      var rest := xs[1..];
      assert xs == [xs[0]] + rest;
      SortDistinct(rest, key, less);
      var sorted := Sort(rest, key, less);
      forall i | 0 <= i < |sorted| ensures key(sorted[i]) != key(xs[0]) {
        assert sorted[i] in sorted;
        var j :| 0 <= j < |rest| && rest[j] == sorted[i];
        assert xs[j + 1] == rest[j];
      }
      DistinctCons(xs[0], sorted, key);
      InsertDistinct(xs[0], sorted, key, less);
    }
  }

  /** Comparisons that agree on the keys of a list sort it alike. */
  ghost predicate AgreeOn<T, K>(xs: seq<T>, key: T -> K, less: (K, K) -> bool, other: (K, K) -> bool) {
    forall x, y | x in xs && y in xs :: less(key(x), key(y)) == other(key(x), key(y))
  }

  lemma {:induction false} InsertAgrees<T(!new), K>(x: T, ys: seq<T>, key: T -> K, less: (K, K) -> bool,
                                                    other: (K, K) -> bool)
    requires AgreeOn([x] + ys, key, less, other)
    ensures Insert(x, ys, key, less) == Insert(x, ys, key, other)
  {
    if ys != [] {
      assert x in [x] + ys && ys[0] in [x] + ys;
      assert forall y | y in [x] + ys[1..] :: y in [x] + ys;
      InsertAgrees(x, ys[1..], key, less, other);
    }
  }

  lemma {:induction false} SortAgrees<T(!new), K>(xs: seq<T>, key: T -> K, less: (K, K) -> bool, other: (K, K) -> bool)
    requires AgreeOn(xs, key, less, other)
    ensures Sort(xs, key, less) == Sort(xs, key, other)
  {
    if xs != [] {
      assert forall y | y in xs[1..] :: y in xs;
      SortAgrees(xs[1..], key, less, other);
      SortMembers(xs[1..], key, less);
      InsertAgrees(xs[0], Sort(xs[1..], key, less), key, less, other);
    }
  }

  lemma SortMembers<T(!new), K>(xs: seq<T>, key: T -> K, less: (K, K) -> bool)
    ensures forall z :: z in Sort(xs, key, less) <==> z in xs
  {
    SortPermutes(xs, key, less);
    forall z ensures z in Sort(xs, key, less) <==> z in xs {
      assert z in multiset(Sort(xs, key, less)) <==> z in multiset(xs);
    }
  }

  lemma {:induction false} InsertSorted<T, K(!new)>(x: T, ys: seq<T>, key: T -> K, less: (K, K) -> bool)
    requires StrictTotal(less) && Sorted(ys, key, less)
    ensures Sorted(Insert(x, ys, key, less), key, less)
  {
    if ys != [] && less(key(ys[0]), key(x)) {
      InsertSorted(x, ys[1..], key, less);
      var rest := Insert(x, ys[1..], key, less);
      InsertPermutes(x, ys[1..], key, less);
      forall j | 0 <= j < |rest| ensures !less(key(rest[j]), key(ys[0])) {
        assert rest[j] in multiset([x] + ys[1..]);
      }
    }
  }

  lemma {:induction false} SortSorted<T, K(!new)>(xs: seq<T>, key: T -> K, less: (K, K) -> bool)
    requires StrictTotal(less)
    ensures Sorted(Sort(xs, key, less), key, less)
  {
    if xs != [] {
      SortSorted(xs[1..], key, less);
      InsertSorted(xs[0], Sort(xs[1..], key, less), key, less);
    }
  }

  lemma {:induction false} InsertStable<T, K(!new)>(x: T, ys: seq<T>, key: T -> K, less: (K, K) -> bool, k: K)
    requires StrictTotal(less)
    ensures WithKey(Insert(x, ys, key, less), key, k) == WithKey([x] + ys, key, k)
  {
    assert ([x] + ys)[1..] == ys;
    if ys != [] && less(key(ys[0]), key(x)) {
      var rest := Insert(x, ys[1..], key, less);
      InsertStable(x, ys[1..], key, less, k);
      assert ([x] + ys[1..])[1..] == ys[1..];
      assert ([ys[0]] + rest)[1..] == rest;
    }
  }

  /** Sorting keeps the elements of each key in their original order. */
  lemma {:induction false} SortStable<T, K(!new)>(xs: seq<T>, key: T -> K, less: (K, K) -> bool, k: K)
    requires StrictTotal(less)
    ensures WithKey(Sort(xs, key, less), key, k) == WithKey(xs, key, k)
  {
    if xs != [] {
      SortStable(xs[1..], key, less, k);
      InsertStable(xs[0], Sort(xs[1..], key, less), key, less, k);
      var ys := Sort(xs[1..], key, less);
      assert ([xs[0]] + ys)[1..] == ys;
    }
  }

  lemma {:induction false} WithKeyMember<T, K>(xs: seq<T>, key: T -> K, k: K)
    ensures forall x :: x in WithKey(xs, key, k) <==> x in xs && key(x) == k
  {
    if xs != [] {
      WithKeyMember(xs[1..], key, k);
      assert xs == [xs[0]] + xs[1..];
    }
  }

  lemma HeadHasKey<T, K>(xs: seq<T>, key: T -> K)
    ensures xs != [] ==> WithKey(xs, key, key(xs[0])) != []
  {
  }

  lemma {:induction false} SortedEqual<T(!new), K(!new)>(a: seq<T>, b: seq<T>, key: T -> K, less: (K, K) -> bool)
    requires StrictTotal(less) && Sorted(a, key, less) && Sorted(b, key, less)
    requires SameByKey(a, b, key)
    ensures a == b
  {
    if a == [] {
      HeadHasKey(b, key);
    } else {
      var k := key(a[0]);
      WithKeyMember(a, key, k);
      WithKeyMember(b, key, k);
      assert a[0] in WithKey(a, key, k);
      assert b != [];
      HeadsAgree(a, b, key, less);
      forall j ensures WithKey(a[1..], key, j) == WithKey(b[1..], key, j) {
        assert WithKey(a, key, j) == WithKey(b, key, j);
        var head := if key(a[0]) == j then [a[0]] else [];
        assert (head + WithKey(a[1..], key, j))[|head|..] == WithKey(a[1..], key, j);
        assert (head + WithKey(b[1..], key, j))[|head|..] == WithKey(b[1..], key, j);
      }
      SortedEqual(a[1..], b[1..], key, less);
    }
  }

  lemma HeadsAgree<T(!new), K(!new)>(a: seq<T>, b: seq<T>, key: T -> K, less: (K, K) -> bool)
    requires StrictTotal(less) && Sorted(a, key, less) && Sorted(b, key, less)
    requires a != [] && b != []
    requires SameByKey(a, b, key)
    ensures a[0] == b[0]
  {
    var ka, kb := key(a[0]), key(b[0]);
    WithKeyMember(a, key, kb);
    WithKeyMember(b, key, ka);
    WithKeyMember(a, key, ka);
    WithKeyMember(b, key, kb);
    assert a[0] in WithKey(b, key, ka) by { assert a[0] in WithKey(a, key, ka); }
    assert b[0] in WithKey(a, key, kb) by { assert b[0] in WithKey(b, key, kb); }
    assert a[0] in b && b[0] in a;
    assert ka == kb;
    assert WithKey(a, key, ka)[0] == a[0] && WithKey(b, key, ka)[0] == b[0];
  }

  lemma SortSameByKey<T, K(!new)>(xs: seq<T>, key: T -> K, less: (K, K) -> bool)
    requires StrictTotal(less)
    ensures SameByKey(Sort(xs, key, less), xs, key)
  {
    forall k ensures WithKey(Sort(xs, key, less), key, k) == WithKey(xs, key, k) {
      SortStable(xs, key, less, k);
    }
  }

  /** What a stable sort forgets, exactly: two lists sort to the same result
      if and only if they list the elements of every key in the same order. */
  lemma SortDeterminedByKeys<T(!new), K(!new)>(xs: seq<T>, ys: seq<T>, key: T -> K, less: (K, K) -> bool)
    requires StrictTotal(less)
    ensures Sort(xs, key, less) == Sort(ys, key, less) <==> SameByKey(xs, ys, key)
  {
    SortSameByKey(xs, key, less);
    SortSameByKey(ys, key, less);
    if SameByKey(xs, ys, key) {
      SortSorted(xs, key, less);
      SortSorted(ys, key, less);
      SortedEqual(Sort(xs, key, less), Sort(ys, key, less), key, less);
    }
  }

  lemma {:induction false} NoneWithKey<T, K>(xs: seq<T>, key: T -> K, k: K)
    requires forall i | 0 <= i < |xs| :: key(xs[i]) != k
    ensures WithKey(xs, key, k) == []
  {
    if xs != [] {
      NoneWithKey(xs[1..], key, k);
    }
  }

  lemma {:induction false} WithDistinctKey<T, K>(xs: seq<T>, key: T -> K, i: nat)
    requires DistinctKeys(xs, key) && i < |xs|
    ensures WithKey(xs, key, key(xs[i])) == [xs[i]]
  {
    if i == 0 {
      NoneWithKey(xs[1..], key, key(xs[0]));
    } else {
      WithDistinctKey(xs[1..], key, i - 1);
    }
  }

  /** With distinct keys, every rearrangement sorts to the same list. */
  lemma PermutationsSortAlike<T(!new), K(!new)>(xs: seq<T>, ys: seq<T>, key: T -> K, less: (K, K) -> bool)
    requires StrictTotal(less) && DistinctKeys(xs, key) && DistinctKeys(ys, key)
    requires forall x :: x in xs <==> x in ys
    ensures Sort(xs, key, less) == Sort(ys, key, less)
  {
    forall k ensures WithKey(xs, key, k) == WithKey(ys, key, k) {
      SameWithKey(xs, ys, key, k);
    }
    SortDeterminedByKeys(xs, ys, key, less);
  }

  lemma SameWithKey<T(!new), K>(xs: seq<T>, ys: seq<T>, key: T -> K, k: K)
    requires DistinctKeys(xs, key) && DistinctKeys(ys, key)
    requires forall x :: x in xs <==> x in ys
    ensures WithKey(xs, key, k) == WithKey(ys, key, k)
  {
    if x :| x in xs && key(x) == k {
      var i :| 0 <= i < |xs| && xs[i] == x;
      var j :| 0 <= j < |ys| && ys[j] == x;
      WithDistinctKey(xs, key, i);
      WithDistinctKey(ys, key, j);
    } else {
      NoneWithKey(xs, key, k);
      NoneWithKey(ys, key, k);
    }
  }

  /** Python's string order: by code point, a proper prefix first. */
  predicate StringLess(a: string, b: string) {
    if b == "" then false
    else if a == "" then true
    else a[0] < b[0] || (a[0] == b[0] && StringLess(a[1..], b[1..]))
  }

  lemma {:induction false} StringLessTrans(a: string, b: string, c: string)
    requires StringLess(a, b) && StringLess(b, c)
    ensures StringLess(a, c)
  {
    if a != "" && a[0] == b[0] && b[0] == c[0] {
      StringLessTrans(a[1..], b[1..], c[1..]);
    }
  }

  lemma {:induction false} StringLessTotal(a: string, b: string)
    ensures !StringLess(a, a)
    ensures a == b || StringLess(a, b) || StringLess(b, a)
  {
    if a != "" {
      StringLessTotal(a[1..], if b == "" then "" else b[1..]);
      if b != "" && a[0] == b[0] && a[1..] == b[1..] {
        assert a == [a[0]] + a[1..] && b == [b[0]] + b[1..];
      }
    }
  }

  lemma StringLessStrictTotal()
    ensures StrictTotal(StringLess)
  {
    forall a, b, c | StringLess(a, b) && StringLess(b, c) ensures StringLess(a, c) {
      StringLessTrans(a, b, c);
    }
    forall a, b ensures !StringLess(a, a) && (a == b || StringLess(a, b) || StringLess(b, a)) {
      StringLessTotal(a, b);
    }
  }
}
