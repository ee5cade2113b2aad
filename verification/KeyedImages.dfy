/** Sorting and then mapping: what the images of a sorted list depend on. */
module KeyedImages {
  import opened Sorting

  function Map<T, U>(f: T -> U, xs: seq<T>): (r: seq<U>)
    ensures |r| == |xs|
    ensures forall i | 0 <= i < |xs| :: r[i] == f(xs[i])
  {
    if xs == [] then [] else [f(xs[0])] + Map(f, xs[1..])
  }

  /** f keeps the sort key. */
  ghost predicate KeepsKey<T(!new), U, K>(f: T -> U, key: T -> K, imageKey: U -> K) {
    forall x :: imageKey(f(x)) == key(x)
  }

  lemma {:induction false} InsertMap<T(!new), U, K>(f: T -> U, x: T, ys: seq<T>, key: T -> K, imageKey: U -> K,
                                                    less: (K, K) -> bool)
    requires KeepsKey(f, key, imageKey)
    ensures Map(f, Insert(x, ys, key, less)) == Insert(f(x), Map(f, ys), imageKey, less)
  {
    assert Map(f, [x] + ys) == [f(x)] + Map(f, ys);
    if ys != [] && less(key(ys[0]), key(x)) {
      InsertMap(f, x, ys[1..], key, imageKey, less);
      assert imageKey(f(x)) == key(x) && imageKey(f(ys[0])) == key(ys[0]);
      assert Map(f, ys)[1..] == Map(f, ys[1..]);
    } else if ys != [] {
      assert imageKey(f(x)) == key(x) && imageKey(f(ys[0])) == key(ys[0]);
    }
  }

  /** Mapping commutes with sorting when it keeps the keys. */
  lemma {:induction false} SortMap<T(!new), U, K>(f: T -> U, xs: seq<T>, key: T -> K, imageKey: U -> K,
                                                  less: (K, K) -> bool)
    requires KeepsKey(f, key, imageKey)
    ensures Map(f, Sort(xs, key, less)) == Sort(Map(f, xs), imageKey, less)
  {
    if xs != [] {
      SortMap(f, xs[1..], key, imageKey, less);
      InsertMap(f, xs[0], Sort(xs[1..], key, less), key, imageKey, less);
      assert Map(f, xs)[1..] == Map(f, xs[1..]);
    }
  }

  lemma {:induction false} WithKeyMap<T(!new), U, K>(f: T -> U, xs: seq<T>, key: T -> K, imageKey: U -> K, k: K)
    requires KeepsKey(f, key, imageKey)
    ensures WithKey(Map(f, xs), imageKey, k) == Map(f, WithKey(xs, key, k))
  {
    if xs != [] {
      WithKeyMap(f, xs[1..], key, imageKey, k);
      assert Map(f, xs)[1..] == Map(f, xs[1..]);
      assert imageKey(f(xs[0])) == key(xs[0]);
      if key(xs[0]) == k {
        assert Map(f, [xs[0]] + WithKey(xs[1..], key, k)) == [f(xs[0])] + Map(f, WithKey(xs[1..], key, k));
      } else {
        assert [] + WithKey(xs[1..], key, k) == WithKey(xs[1..], key, k);
      }
    }
  }

  /** The elements of every single key have the same images, in the same order. */
  ghost predicate SameImages<T, U, K(!new)>(f: T -> U, xs: seq<T>, ys: seq<T>, key: T -> K) {
    forall k :: Map(f, WithKey(xs, key, k)) == Map(f, WithKey(ys, key, k))
  }

  lemma SortedImagesIff<T(!new), U(!new), K(!new)>(f: T -> U, xs: seq<T>, ys: seq<T>, key: T -> K, imageKey: U -> K,
                                                   less: (K, K) -> bool)
    requires KeepsKey(f, key, imageKey) && StrictTotal(less)
    ensures Map(f, Sort(xs, key, less)) == Map(f, Sort(ys, key, less)) <==> SameImages(f, xs, ys, key)
  {
    var p, q := Map(f, xs), Map(f, ys);
    SortMap(f, xs, key, imageKey, less);
    SortMap(f, ys, key, imageKey, less);
    SortDeterminedByKeys(p, q, imageKey, less);
    forall k ensures WithKey(p, imageKey, k) == Map(f, WithKey(xs, key, k))
        && WithKey(q, imageKey, k) == Map(f, WithKey(ys, key, k)) {
      WithKeyMap(f, xs, key, imageKey, k);
      WithKeyMap(f, ys, key, imageKey, k);
    }
    SameByKeyIff(p, q, f, xs, ys, key, imageKey);
  }

  lemma SameByKeyIff<T(!new), U(!new), K(!new)>(p: seq<U>, q: seq<U>, f: T -> U, xs: seq<T>, ys: seq<T>, key: T -> K,
                                                imageKey: U -> K)
    requires forall k :: WithKey(p, imageKey, k) == Map(f, WithKey(xs, key, k))
    requires forall k :: WithKey(q, imageKey, k) == Map(f, WithKey(ys, key, k))
    ensures SameByKey(p, q, imageKey) <==> SameImages(f, xs, ys, key)
  {
  }

  // ----- keys that determine the element -----

  ghost predicate Identifies<T(!new), K(!new)>(key: T -> K) {
    forall x, y :: key(x) == key(y) ==> x == y
  }

  lemma {:induction false} CountWithKey<T(!new), K(!new)>(xs: seq<T>, key: T -> K, x: T)
    requires Identifies(key)
    ensures |WithKey(xs, key, key(x))| == multiset(xs)[x]
    ensures forall i | 0 <= i < |WithKey(xs, key, key(x))| :: WithKey(xs, key, key(x))[i] == x
  {
    if xs != [] {
      CountWithKey(xs[1..], key, x);
      assert xs == [xs[0]] + xs[1..];
    }
  }

  /** Sorting by a key that is the whole element forgets the order and nothing else. */
  lemma SortIsMultiset<T(!new), K(!new)>(xs: seq<T>, ys: seq<T>, key: T -> K, less: (K, K) -> bool)
    requires Identifies(key) && StrictTotal(less)
    ensures Sort(xs, key, less) == Sort(ys, key, less) <==> multiset(xs) == multiset(ys)
  {
    SortDeterminedByKeys(xs, ys, key, less);
    if multiset(xs) == multiset(ys) {
      forall k ensures WithKey(xs, key, k) == WithKey(ys, key, k) {
        OneKeySame(xs, ys, key, k);
      }
    } else if SameByKey(xs, ys, key) {
      forall x ensures multiset(xs)[x] == multiset(ys)[x] {
        CountWithKey(xs, key, x);
        CountWithKey(ys, key, x);
      }
      assert false;
    }
  }

  lemma OneKeySame<T(!new), K(!new)>(xs: seq<T>, ys: seq<T>, key: T -> K, k: K)
    requires Identifies(key) && multiset(xs) == multiset(ys)
    ensures WithKey(xs, key, k) == WithKey(ys, key, k)
  {
    if x :| key(x) == k {
      CountWithKey(xs, key, x);
      CountWithKey(ys, key, x);
    } else {
      NoneWithKey(xs, key, k);
      NoneWithKey(ys, key, k);
    }
  }

  // ----- tuples of strings as keys -----

  /** Python's order of tuples of strings. */
  predicate TupleLess(a: seq<string>, b: seq<string>) {
    if b == [] then false
    else if a == [] then true
    else StringLess(a[0], b[0]) || (a[0] == b[0] && TupleLess(a[1..], b[1..]))
  }

  lemma {:induction false} TupleLessTrans(a: seq<string>, b: seq<string>, c: seq<string>)
    requires TupleLess(a, b) && TupleLess(b, c)
    ensures TupleLess(a, c)
  {
    StringLessStrictTotal();
    if a != [] && a[0] == b[0] && b[0] == c[0] {
      StringLessTotal(a[0], b[0]);
      TupleLessTrans(a[1..], b[1..], c[1..]);
    }
  }

  lemma {:induction false} TupleLessTotal(a: seq<string>, b: seq<string>)
    ensures !TupleLess(a, a)
    ensures a == b || TupleLess(a, b) || TupleLess(b, a)
  {
    if a != [] {
      StringLessTotal(a[0], if b == [] then "" else b[0]);
      TupleLessTotal(a[1..], if b == [] then [] else b[1..]);
      if b != [] && a[0] == b[0] && a[1..] == b[1..] {
        assert a == [a[0]] + a[1..] && b == [b[0]] + b[1..];
      }
    }
  }

  lemma TupleLessStrictTotal()
    ensures StrictTotal(TupleLess)
  {
    forall a, b, c | TupleLess(a, b) && TupleLess(b, c) ensures TupleLess(a, c) {
      TupleLessTrans(a, b, c);
    }
    forall a, b ensures !TupleLess(a, a) && (a == b || TupleLess(a, b) || TupleLess(b, a)) {
      TupleLessTotal(a, b);
    }
  }
}
