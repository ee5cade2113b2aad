/** Canonical JSON: sort the members of every object by name, then print. Two
    trees get the same text exactly when they denote the same value, whatever
    the insertion order of their members. */
module CanonicalJson {
  import opened JsonText
  import opened Sorting

  /** What a JSON tree denotes: objects are finite maps, so order is gone. */
  datatype Value =
    | NullValue
    | BoolValue(b: bool)
    | NumberValue(token: string)
    | TextValue(s: string)
    | ArrayValue(items: seq<Value>)
    | ObjectValue(fields: map<string, Value>)

  function Meaning(j: Json): Value
    decreases j, 1
  {
    match j
    case Null => NullValue
    case Bool(b) => BoolValue(b)
    case Number(t) => NumberValue(t)
    case Text(s) => TextValue(s)
    case Array(items) => ArrayValue(seq(|items|, i requires 0 <= i < |items| => Meaning(items[i])))
    case Object(ms) => ObjectValue(Fields(ms))
  }

  /** A later member with the same name would win, as in both runtimes. */
  function Fields(ms: seq<Member>): map<string, Value>
    decreases ms, 0
  {
    if ms == [] then map[] else map[ms[0].name := Meaning(ms[0].value)] + Fields(ms[1..])
  }

  function NameOf(m: Member): string {
    m.name
  }

  /** Every object of the tree names its members differently, as a dict does. */
  ghost predicate WellFormed(j: Json) {
    match j
    case Number(t) => NumberToken(t)
    case Array(items) => forall i | 0 <= i < |items| :: WellFormed(items[i])
    case Object(ms) => DistinctKeys(ms, NameOf) && forall i | 0 <= i < |ms| :: WellFormed(ms[i].value)
    case _ => true
  }

  /** Sort the members of every object, at every depth. */
  function SortNames(j: Json, less: (string, string) -> bool): Json
    decreases j, 1
  {
    match j
    case Array(items) => Array(seq(|items|, i requires 0 <= i < |items| => SortNames(items[i], less)))
    case Object(ms) => Object(Sort(SortValues(ms, less), NameOf, less))
    case _ => j
  }

  function SortValues(ms: seq<Member>, less: (string, string) -> bool): (r: seq<Member>)
    ensures |r| == |ms|
    ensures forall i | 0 <= i < |ms| :: r[i] == Member(ms[i].name, SortNames(ms[i].value, less))
    decreases ms, 0
  {
    if ms == [] then []
    else [Member(ms[0].name, SortNames(ms[0].value, less))] + SortValues(ms[1..], less)
  }

  /** `json.dumps(..., ensure_ascii=True, separators=(",", ":"), sort_keys=True)`. */
  function Dumps(j: Json): string {
    Print(SortNames(j, StringLess), true)
  }

  // ----- the map an object denotes -----

  lemma {:induction false} FieldsLookup(ms: seq<Member>)
    requires DistinctKeys(ms, NameOf)
    ensures forall name :: name in Fields(ms) <==> exists i :: 0 <= i < |ms| && ms[i].name == name
    ensures forall i | 0 <= i < |ms| :: Fields(ms)[ms[i].name] == Meaning(ms[i].value)
  {
    if ms != [] {
      var rest := ms[1..];
      forall i, j | 0 <= i < j < |rest| ensures NameOf(rest[i]) != NameOf(rest[j]) {
        assert NameOf(ms[i + 1]) != NameOf(ms[j + 1]);
      }
      FieldsLookup(rest);
      forall name ensures name in Fields(ms) <==> exists i :: 0 <= i < |ms| && ms[i].name == name {
        if i :| 0 <= i < |rest| && rest[i].name == name {
          assert ms[i + 1].name == name;
        }
      }
      forall i | 0 <= i < |ms| ensures Fields(ms)[ms[i].name] == Meaning(ms[i].value) {
        if i > 0 {
          assert rest[i - 1] == ms[i];
        } else {
          assert forall j | 0 <= j < |rest| :: rest[j].name != NameOf(ms[0]);
        }
      }
    }
  }

  /** Members listed in another order denote the same map. */
  lemma FieldsOfPermutation(xs: seq<Member>, ys: seq<Member>)
    requires DistinctKeys(xs, NameOf) && DistinctKeys(ys, NameOf)
    requires forall m :: m in xs <==> m in ys
    ensures Fields(xs) == Fields(ys)
  {
    FieldsIncluded(xs, ys);
    FieldsIncluded(ys, xs);
  }

  lemma FieldsIncluded(xs: seq<Member>, ys: seq<Member>)
    requires DistinctKeys(xs, NameOf) && DistinctKeys(ys, NameOf)
    requires forall m :: m in xs ==> m in ys
    ensures forall name :: name in Fields(xs) ==> name in Fields(ys) && Fields(ys)[name] == Fields(xs)[name]
  {
    FieldsLookup(xs);
    FieldsLookup(ys);
    forall name | name in Fields(xs) ensures name in Fields(ys) && Fields(ys)[name] == Fields(xs)[name] {
      var i :| 0 <= i < |xs| && xs[i].name == name;
      assert xs[i] in ys;
      var j :| 0 <= j < |ys| && ys[j] == xs[i];
      assert Fields(ys)[ys[j].name] == Meaning(ys[j].value);
    }
  }

  // ----- sorting names keeps the meaning, and forgets only the order -----

  lemma {:induction false} SortNamesMeaning(j: Json, less: (string, string) -> bool)
    requires WellFormed(j)
    ensures Meaning(SortNames(j, less)) == Meaning(j) && WellFormed(SortNames(j, less))
  {
    match j
    case Array(items) =>
      forall i | 0 <= i < |items|
        ensures Meaning(SortNames(items[i], less)) == Meaning(items[i]) && WellFormed(SortNames(items[i], less))
      {
        SortNamesMeaning(items[i], less);
      }
    case Object(ms) =>
      var values := SortValues(ms, less);
      forall i | 0 <= i < |ms|
        ensures Meaning(SortNames(ms[i].value, less)) == Meaning(ms[i].value)
        ensures WellFormed(SortNames(ms[i].value, less))
      {
        SortNamesMeaning(ms[i].value, less);
      }
      SortObjectMeaning(ms, values, less);
    case _ =>
  }

  lemma SortObjectMeaning(ms: seq<Member>, values: seq<Member>, less: (string, string) -> bool)
    requires DistinctKeys(ms, NameOf) && |values| == |ms|
    requires forall i | 0 <= i < |ms| :: values[i].name == ms[i].name
    requires forall i | 0 <= i < |ms| :: Meaning(values[i].value) == Meaning(ms[i].value)
    requires forall i | 0 <= i < |ms| :: WellFormed(values[i].value)
    ensures Fields(Sort(values, NameOf, less)) == Fields(ms)
    ensures WellFormed(Object(Sort(values, NameOf, less)))
  {
    SameNamesDistinct(ms, values);
    SameFieldsPointwise(ms, values);
    SortDistinct(values, NameOf, less);
    FieldsOfPermutation(Sort(values, NameOf, less), values);
    SortedWellFormed(values, Sort(values, NameOf, less));
  }

  lemma SameNamesDistinct(ms: seq<Member>, values: seq<Member>)
    requires DistinctKeys(ms, NameOf) && |values| == |ms|
    requires forall i | 0 <= i < |ms| :: values[i].name == ms[i].name
    ensures DistinctKeys(values, NameOf)
  {
    forall i, j | 0 <= i < j < |values| ensures NameOf(values[i]) != NameOf(values[j]) {
      assert NameOf(ms[i]) != NameOf(ms[j]);
    }
  }

  lemma {:induction false} SameFieldsPointwise(ms: seq<Member>, values: seq<Member>)
    requires |values| == |ms|
    requires forall i | 0 <= i < |ms| :: values[i].name == ms[i].name
    requires forall i | 0 <= i < |ms| :: Meaning(values[i].value) == Meaning(ms[i].value)
    ensures Fields(values) == Fields(ms)
  {
    if ms != [] {
      SameFieldsPointwise(ms[1..], values[1..]);
    }
  }

  lemma SortedWellFormed(values: seq<Member>, sorted: seq<Member>)
    requires forall m :: m in values <==> m in sorted
    requires DistinctKeys(sorted, NameOf)
    requires forall i | 0 <= i < |values| :: WellFormed(values[i].value)
    ensures WellFormed(Object(sorted))
  {
    forall i | 0 <= i < |sorted| ensures WellFormed(sorted[i].value) {
      assert sorted[i] in values;
    }
  }

  /** Trees that denote the same value sort to the same tree. */
  lemma {:induction false} SameMeaningSortsAlike(a: Json, b: Json, less: (string, string) -> bool)
    requires WellFormed(a) && WellFormed(b) && StrictTotal(less)
    requires Meaning(a) == Meaning(b)
    ensures SortNames(a, less) == SortNames(b, less)
    decreases a
  {
    match a
    case Array(items) =>
      forall i | 0 <= i < |items| ensures SortNames(items[i], less) == SortNames(b.items[i], less) {
        assert Meaning(a).items[i] == Meaning(b).items[i];
        SameMeaningSortsAlike(items[i], b.items[i], less);
      }
    case Object(ms) =>
      var ns := b.members;
      forall i, j | 0 <= i < |ms| && 0 <= j < |ns| && Meaning(ms[i].value) == Meaning(ns[j].value)
        ensures SortNames(ms[i].value, less) == SortNames(ns[j].value, less)
      {
        SameMeaningSortsAlike(ms[i].value, ns[j].value, less);
      }
      SameFieldsSortAlike(ms, ns, less);
    case _ =>
  }

  lemma SameFieldsSortAlike(ms: seq<Member>, ns: seq<Member>, less: (string, string) -> bool)
    requires StrictTotal(less) && DistinctKeys(ms, NameOf) && DistinctKeys(ns, NameOf)
    requires Fields(ms) == Fields(ns)
    requires forall i, j | 0 <= i < |ms| && 0 <= j < |ns| && Meaning(ms[i].value) == Meaning(ns[j].value) ::
               SortNames(ms[i].value, less) == SortNames(ns[j].value, less)
    ensures Sort(SortValues(ms, less), NameOf, less) == Sort(SortValues(ns, less), NameOf, less)
  {
    var xs, ys := SortValues(ms, less), SortValues(ns, less);
    FieldsLookup(ms);
    FieldsLookup(ns);
    forall i | 0 <= i < |ms| ensures xs[i] in ys {
      assert ms[i].name in Fields(ns);
      var j :| 0 <= j < |ns| && ns[j].name == ms[i].name;
      assert xs[i] == ys[j];
    }
    forall j | 0 <= j < |ns| ensures ys[j] in xs {
      assert ns[j].name in Fields(ms);
      var i :| 0 <= i < |ms| && ms[i].name == ns[j].name;
      assert xs[i] == ys[j];
    }
    SameNamesDistinct(ms, xs);
    SameNamesDistinct(ns, ys);
    PermutationsSortAlike(xs, ys, NameOf, less);
  }

  lemma {:induction false} WellFormedTokens(j: Json)
    requires WellFormed(j)
    ensures Tokens(j)
  {
    match j
    case Array(items) =>
      forall i | 0 <= i < |items| ensures Tokens(items[i]) { WellFormedTokens(items[i]); }
    case Object(ms) =>
      forall i | 0 <= i < |ms| ensures Tokens(ms[i].value) { WellFormedTokens(ms[i].value); }
    case _ =>
  }

  /** Sorted printing decides equality of values: the same text if and only if
      the trees denote the same value, for any strict total order on names. */
  lemma SortedTextCharacterizes(a: Json, b: Json, less: (string, string) -> bool, ascii: bool)
    requires WellFormed(a) && WellFormed(b) && StrictTotal(less)
    ensures Print(SortNames(a, less), ascii) == Print(SortNames(b, less), ascii) <==> Meaning(a) == Meaning(b)
  {
    SortNamesMeaning(a, less);
    SortNamesMeaning(b, less);
    WellFormedTokens(SortNames(a, less));
    WellFormedTokens(SortNames(b, less));
    PrintInjective(SortNames(a, less), SortNames(b, less), ascii);
    if Meaning(a) == Meaning(b) {
      SameMeaningSortsAlike(a, b, less);
    }
  }

  /** Reading a canonical text recovers the value it was made from. */
  lemma DumpsReads(j: Json)
    requires WellFormed(j)
    ensures ReadValue(Dumps(j)).Got? && ReadValue(Dumps(j)).rest == ""
    ensures Meaning(ReadValue(Dumps(j)).value) == Meaning(j)
  {
    StringLessStrictTotal();
    SortNamesMeaning(j, StringLess);
    WellFormedTokens(SortNames(j, StringLess));
    PrintReads(SortNames(j, StringLess), true, "");
    assert Dumps(j) + "" == Dumps(j);
  }

  lemma DumpsCharacterizes(a: Json, b: Json)
    requires WellFormed(a) && WellFormed(b)
    ensures Dumps(a) == Dumps(b) <==> Meaning(a) == Meaning(b)
  {
    StringLessStrictTotal();
    SortedTextCharacterizes(a, b, StringLess, true);
  }
}
