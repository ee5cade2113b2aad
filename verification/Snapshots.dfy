/** The editor's dirty check: two strategies are the same snapshot when their
    trees, with object members sorted, stringify alike. */
module Snapshots {
  import opened JsonText
  import opened CanonicalJson
  import opened Sorting

  /** `sameCanonicalSnapshot`, where `less` is the order that the runtime's name
      comparison sorts members into. */
  predicate SameSnapshot(a: Json, b: Json, less: (string, string) -> bool) {
    Print(SortNames(a, less), false) == Print(SortNames(b, less), false)
  }

  /** Equal snapshots are deeply equal up to the order of object members, whatever
      the comparison of names. */
  lemma SnapshotSound(a: Json, b: Json, less: (string, string) -> bool)
    requires WellFormed(a) && WellFormed(b) && SameSnapshot(a, b, less)
    ensures Meaning(a) == Meaning(b)
  {
    SortNamesMeaning(a, less);
    SortNamesMeaning(b, less);
    WellFormedTokens(SortNames(a, less));
    WellFormedTokens(SortNames(b, less));
    PrintInjective(SortNames(a, less), SortNames(b, less), false);
  }

  // ----- comparisons that tie -----

  predicate Ties(less: (string, string) -> bool, p: string, q: string) {
    !less(p, q) && !less(q, p)
  }

  /** A locale's comparison: an order of names in which some may tie, as canonically
      equivalent spellings of one name do. */
  ghost predicate WeakOrder(less: (string, string) -> bool) {
    && (forall p :: !less(p, p))
    && (forall p, q, r :: less(p, q) && less(q, r) ==> less(p, r))
    && (forall p, q, r :: Ties(less, p, q) && Ties(less, q, r) ==> Ties(less, p, r))
  }

  /** No object of the tree has two names that tie. */
  ghost predicate NoTies(j: Json, less: (string, string) -> bool) {
    match j
    case Array(items) => forall i | 0 <= i < |items| :: NoTies(items[i], less)
    case Object(ms) =>
      && (forall i | 0 <= i < |ms| :: NoTies(ms[i].value, less))
      && (forall i, k | 0 <= i < k < |ms| :: !Ties(less, ms[i].name, ms[k].name))
    case _ => true
  }

  /** The comparison with its ties broken by code point. */
  function Refined(less: (string, string) -> bool): (string, string) -> bool {
    (p, q) => less(p, q) || (!less(q, p) && StringLess(p, q))
  }

  lemma LessThenTies(less: (string, string) -> bool, p: string, q: string, r: string)
    requires WeakOrder(less) && less(p, q) && Ties(less, q, r)
    ensures less(p, r)
  {
    assert Ties(less, p, r) && Ties(less, r, q) ==> Ties(less, p, q);
    assert less(r, p) && less(p, q) ==> less(r, q);
  }

  lemma TiesThenLess(less: (string, string) -> bool, p: string, q: string, r: string)
    requires WeakOrder(less) && Ties(less, p, q) && less(q, r)
    ensures less(p, r)
  {
    assert Ties(less, q, p) && Ties(less, p, r) ==> Ties(less, q, r);
    assert less(q, r) && less(r, p) ==> less(q, p);
  }

  lemma RefinedTrans(less: (string, string) -> bool, p: string, q: string, r: string)
    requires WeakOrder(less) && Refined(less)(p, q) && Refined(less)(q, r)
    ensures Refined(less)(p, r)
  {
    if less(p, q) && !less(q, r) {
      LessThenTies(less, p, q, r);
    } else if !less(p, q) && less(q, r) {
      TiesThenLess(less, p, q, r);
    } else if !less(p, q) {
      assert Ties(less, p, q) && Ties(less, q, r);
      StringLessTrans(p, q, r);
    }
  }

  lemma RefinedTotal(less: (string, string) -> bool)
    requires WeakOrder(less)
    ensures StrictTotal(Refined(less))
  {
    forall p, q, r | Refined(less)(p, q) && Refined(less)(q, r) ensures Refined(less)(p, r) {
      RefinedTrans(less, p, q, r);
    }
    forall p, q ensures !Refined(less)(p, p) && (p == q || Refined(less)(p, q) || Refined(less)(q, p)) {
      StringLessTotal(p, q);
    }
  }

  /** Where nothing ties, breaking ties changes nothing. */
  lemma {:induction false} RefinedSortsAlike(j: Json, less: (string, string) -> bool)
    requires WeakOrder(less) && NoTies(j, less)
    ensures SortNames(j, less) == SortNames(j, Refined(less))
  {
    match j
    case Array(items) =>
      forall i | 0 <= i < |items| ensures SortNames(items[i], less) == SortNames(items[i], Refined(less)) {
        RefinedSortsAlike(items[i], less);
      }
    case Object(ms) =>
      forall i | 0 <= i < |ms| ensures SortNames(ms[i].value, less) == SortNames(ms[i].value, Refined(less)) {
        RefinedSortsAlike(ms[i].value, less);
      }
      assert SortValues(ms, less) == SortValues(ms, Refined(less));
      RefinedAgrees(ms, SortValues(ms, less), less);
      SortAgrees(SortValues(ms, less), NameOf, less, Refined(less));
    case _ =>
  }

  lemma RefinedAgrees(ms: seq<Member>, values: seq<Member>, less: (string, string) -> bool)
    requires WeakOrder(less) && |values| == |ms|
    requires forall i | 0 <= i < |ms| :: values[i].name == ms[i].name
    requires forall i, k | 0 <= i < k < |ms| :: !Ties(less, ms[i].name, ms[k].name)
    ensures AgreeOn(values, NameOf, less, Refined(less))
  {
    forall x, y | x in values && y in values ensures less(x.name, y.name) == Refined(less)(x.name, y.name) {
      var i :| 0 <= i < |values| && values[i] == x;
      var k :| 0 <= k < |values| && values[k] == y;
      if i == k {
        StringLessTotal(x.name, y.name);
      } else {
        assert !Ties(less, ms[if i < k then i else k].name, ms[if i < k then k else i].name);
      }
    }
  }

  /** A snapshot comparison is deep equality up to the order of object members, for
      every weak order of names and all trees in which no two names of one object
      tie. */
  lemma SnapshotIsDeepEquality(a: Json, b: Json, less: (string, string) -> bool)
    requires WellFormed(a) && WellFormed(b) && WeakOrder(less) && NoTies(a, less) && NoTies(b, less)
    ensures SameSnapshot(a, b, less) <==> Meaning(a) == Meaning(b)
  {
    RefinedTotal(less);
    RefinedSortsAlike(a, less);
    RefinedSortsAlike(b, less);
    SortedTextCharacterizes(a, b, Refined(less), false);
  }

  /** Which locale's comparison the runtime uses makes no difference to such trees. */
  lemma SnapshotIgnoresLocale(a: Json, b: Json, less: (string, string) -> bool, other: (string, string) -> bool)
    requires WellFormed(a) && WellFormed(b) && WeakOrder(less) && WeakOrder(other)
    requires NoTies(a, less) && NoTies(b, less) && NoTies(a, other) && NoTies(b, other)
    ensures SameSnapshot(a, b, less) <==> SameSnapshot(a, b, other)
  {
    SnapshotIsDeepEquality(a, b, less);
    SnapshotIsDeepEquality(a, b, other);
  }

  /** A comparison that ties two different names makes equal strategies differ:
      the sort then keeps their insertion order. */
  lemma TiedNamesBreakSnapshots(p: string, q: string, less: (string, string) -> bool) returns (a: Json, b: Json)
    requires p != q && !less(p, q) && !less(q, p)
    ensures WellFormed(a) && WellFormed(b) && Meaning(a) == Meaning(b)
    ensures !SameSnapshot(a, b, less)
  {
    var x, y := Member(p, Null), Member(q, Null);
    a, b := Object([x, y]), Object([y, x]);
    FieldsOfPermutation([x, y], [y, x]);
    SortTied(x, y, less);
    SortTied(y, x, less);
    PrintInjective(a, b, false);
  }

  /** A snapshot comparison is deep equality for all trees if and only if the
      name comparison never ties two different names. */
  lemma SnapshotFaithfulIff(less: (string, string) -> bool)
    requires (forall a :: !less(a, a)) && (forall a, b, c :: less(a, b) && less(b, c) ==> less(a, c))
    ensures (forall a, b | WellFormed(a) && WellFormed(b) :: SameSnapshot(a, b, less) <==> Meaning(a) == Meaning(b))
       <==> (forall p, q :: p == q || less(p, q) || less(q, p))
  {
    if forall p, q :: p == q || less(p, q) || less(q, p) {
      forall a, b | WellFormed(a) && WellFormed(b)
        ensures SameSnapshot(a, b, less) <==> Meaning(a) == Meaning(b)
      {
        SortedTextCharacterizes(a, b, less, false);
      }
    } else {
      var p, q :| p != q && !less(p, q) && !less(q, p);
      var a, b := TiedNamesBreakSnapshots(p, q, less);
    }
  }

  lemma SortTied(x: Member, y: Member, less: (string, string) -> bool)
    requires x.value == Null && y.value == Null && !less(y.name, x.name)
    ensures SortNames(Object([x, y]), less) == Object([x, y])
  {
    assert SortValues([x, y], less) == [x, y];
    assert [x, y][1..] == [y] && [y][1..] == [];
    assert Sort([y], NameOf, less) == [y];
  }
}
