/** What stands in the payload of a simple strategy and how it is laid out as JSON,
    entry by entry. */
module PayloadShape {
  import opened Options
  import opened Decimals
  import opened DecimalText
  import opened Sorting
  import opened JsonText
  import opened CanonicalJson
  import opened JsonShape
  import opened Normalization
  import opened SemanticIdentity
  import opened SimpleStrategy

  // ----- layouts -----

  lemma NegatedNumeral(size: nat, negative: bool)
    requires negative ==> size > 0
    ensures IsNumeral(WithSign(negative, Digits(size)), negative, Digits(size), "")
  {
    NoLeadingZero(size);
    assert Digits(size) != "0" || !negative;
  }

  /** An integer is laid out as its canonical numeral. */
  lemma IntTokenReads(n: int)
    ensures CanonicalNumeral(IntToken(n))
    ensures Decimals.Read(IntToken(n)) == Some(Decimal(n < 0, if n < 0 then -n else n, 0))
  {
    var size := if n < 0 then -n else n;
    ReadDigitsOfDigits(size);
    assert Digits(size) + "" == Digits(size);
    NegatedNumeral(size, n < 0);
    assert IntToken(n) == WithSign(n < 0, Digits(size));
    NumeralReads(IntToken(n), n < 0, Digits(size), "");
  }

  /** How a value is laid out, constructor by constructor: an object lists each entry
      of the dictionary once, in any order. */
  lemma LaysIff(j: Json, v: PyValue)
    requires Plain(v)
    ensures Lays(j, v) <==>
            match v
            case PyNone => j == Null
            case PyBool(b) => j == Bool(b)
            case PyInt(n) => j == Number(IntToken(n))
            case PyStr(s) => j == JsonText.Text(s)
            case PyList(items) =>
              j.Array? && |j.items| == |items| && forall i | 0 <= i < |items| :: Lays(j.items[i], items[i])
            case PyDict(m) => j.Object? && ListsEntries(j.members, m)
  {
    match v
    case PyInt(n) => IntTokenIsNumber(n);
    case PyList(items) => ListLaysIff(j, v);
    case PyDict(m) => DictLaysIff(j, v);
    case _ =>
  }

  ghost predicate ListsEntries(ms: seq<Member>, m: map<string, PyValue>) {
    && (forall i, k | 0 <= i < k < |ms| :: ms[i].name != ms[k].name)
    && (forall name :: name in m <==> exists i :: 0 <= i < |ms| && ms[i].name == name)
    && (forall i | 0 <= i < |ms| && ms[i].name in m :: Lays(ms[i].value, m[ms[i].name]))
  }

  lemma ListLaysIff(j: Json, v: PyValue)
    requires Plain(v) && v.PyList?
    ensures Lays(j, v) <==>
            j.Array? && |j.items| == |v.items| && forall i | 0 <= i < |v.items| :: Lays(j.items[i], v.items[i])
  {
    if j.Array? {
      if Lays(j, v) {
        forall i | 0 <= i < |v.items| ensures Lays(j.items[i], v.items[i]) {
          assert Meaning(j).items[i] == ToValue(v).items[i];
        }
      }
      if |j.items| == |v.items| && forall i | 0 <= i < |v.items| :: Lays(j.items[i], v.items[i]) {
        assert Meaning(j).items == ToValue(v).items;
      }
    }
  }

  lemma SameNames(ms: seq<Member>)
    ensures DistinctKeys(ms, NameOf) <==> forall i, k | 0 <= i < k < |ms| :: ms[i].name != ms[k].name
  {
    forall i, k | 0 <= i < k < |ms| ensures NameOf(ms[i]) == NameOf(ms[k]) <==> ms[i].name == ms[k].name {
    }
  }

  lemma DictLaysIff(j: Json, v: PyValue)
    requires Plain(v) && v.PyDict?
    ensures Lays(j, v) <==> j.Object? && ListsEntries(j.members, v.fields)
  {
    if j.Object? {
      SameNames(j.members);
      if DistinctKeys(j.members, NameOf) {
        FieldsLookup(j.members);
        if Lays(j, v) {
          LaidOutEntries(j.members, v);
        }
        if ListsEntries(j.members, v.fields) {
          EntriesLaidOut(j.members, v);
        }
      }
    }
  }

  lemma LaidOutEntries(ms: seq<Member>, v: PyValue)
    requires Plain(v) && v.PyDict? && Lays(Object(ms), v)
    ensures ListsEntries(ms, v.fields)
  {
    SameNames(ms);
    FieldsLookup(ms);
    assert Fields(ms) == ToValue(v).fields;
    forall i | 0 <= i < |ms| && ms[i].name in v.fields ensures Lays(ms[i].value, v.fields[ms[i].name]) {
      assert Fields(ms)[ms[i].name] == Meaning(ms[i].value);
    }
    assert forall name :: name in v.fields <==> name in Fields(ms);
  }

  lemma EntriesLaidOut(ms: seq<Member>, v: PyValue)
    requires Plain(v) && v.PyDict? && ListsEntries(ms, v.fields)
    ensures Lays(Object(ms), v)
  {
    SameNames(ms);
    FieldsLookup(ms);
    forall i | 0 <= i < |ms| ensures WellFormed(ms[i].value) {
      assert ms[i].name in v.fields;
    }
    forall name | name in v.fields ensures name in Fields(ms) && Fields(ms)[name] == ToValue(v.fields[name]) {
      FieldLaidOut(ms, v, name);
    }
    SameFields(Fields(ms), ToValue(v).fields);
  }

  lemma FieldLaidOut(ms: seq<Member>, v: PyValue, name: string)
    requires Plain(v) && v.PyDict? && ListsEntries(ms, v.fields) && name in v.fields && DistinctKeys(ms, NameOf)
    ensures name in Fields(ms) && Fields(ms)[name] == ToValue(v.fields[name])
  {
    FieldsLookup(ms);
    var i :| 0 <= i < |ms| && ms[i].name == name;
    assert Lays(ms[i].value, v.fields[name]);
  }

  lemma SameFields(m: map<string, Value>, n: map<string, Value>)
    requires m.Keys == n.Keys && forall name | name in n :: m[name] == n[name]
    ensures m == n
  {
  }

  // ----- the payload -----

  /** v lists every asset once with its symbol and its weight's numeral, by ascending symbol. */
  ghost predicate ListsAssets(v: PyValue, assets: seq<Asset>) {
    v.PyList? && exists sorted: seq<Asset> ::
      && multiset(sorted) == multiset(assets) && |v.items| == |sorted|
      && (forall i, k | 0 <= i < k < |sorted| :: Before(sorted[i].symbol, sorted[k].symbol))
      && (forall i | 0 <= i < |sorted| :: IsAssetEntry(v.items[i], sorted[i]))
  }

  predicate IsAssetEntry(v: PyValue, a: Asset) {
    v == PyDict(map["symbol" := PyStr(a.symbol), "weight" := PyStr(Decimals.Text(a.weight))])
  }

  lemma AssetsListed(assets: seq<Asset>)
    requires DistinctKeys(assets, SymbolOf)
    ensures ListsAssets(AssetsValue(assets), assets)
  {
    StringLessStrictTotal();
    var sorted := Sort(assets, SymbolOf, StringLess);
    SortPermutes(assets, SymbolOf, StringLess);
    SortSorted(assets, SymbolOf, StringLess);
    SortDistinct(assets, SymbolOf, StringLess);
    forall i, k | 0 <= i < k < |sorted| ensures Before(sorted[i].symbol, sorted[k].symbol) {
      assert SymbolOf(sorted[i]) != SymbolOf(sorted[k]) && !StringLess(SymbolOf(sorted[k]), SymbolOf(sorted[i]));
      StringLessTotal(sorted[i].symbol, sorted[k].symbol);
      StringLessIff(sorted[i].symbol, sorted[k].symbol);
    }
  }

  /** The payload of an accepted strategy: six entries, amounts as their canonical
      numerals, a contribution with its frequency or null, and the assets by symbol. */
  lemma PayloadEntriesOf(spec: SimpleSpec)
    requires Validate(spec) == None
    ensures
      var p := Payload(spec);
      && p.PyDict?
      && p.fields.Keys
           == {"api_version", "currency", "initial_capital", "recurring_contribution", "rebalance", "assets"}
      && p.fields["api_version"] == PyStr("ruletrade.dev/simple/v0")
      && p.fields["currency"] == PyStr(spec.currency)
      && p.fields["initial_capital"] == PyStr(Decimals.Text(spec.initialCapital))
      && p.fields["recurring_contribution"] == (
           if spec.recurringAmount == None then PyNone
           else PyDict(map["amount" := PyStr(Decimals.Text(spec.recurringAmount.value)),
                           "frequency" := PyStr("monthly")]))
      && p.fields["rebalance"] == PyStr(match spec.rebalance case Once => "once" case Monthly => "monthly")
      && ListsAssets(p.fields["assets"], spec.assets)
  {
    AcceptedIsUnique(spec);
    AssetsListed(spec.assets);
    var v, w := PyStr(spec.currency), PyStr(Decimals.Text(spec.initialCapital));
    var x, y, z := Contribution(spec.recurringAmount), PyStr(RebalanceText(spec.rebalance)), AssetsValue(spec.assets);
    PayloadKeys(v, w, x, y, z);
    PayloadEntries(v, w, x, y, z);
  }

  lemma PayloadKeys(v: PyValue, w: PyValue, x: PyValue, y: PyValue, z: PyValue)
    ensures
      var p := PayloadDict(v, w, x, y, z).fields;
      && p.Keys == {"api_version", "currency", "initial_capital", "recurring_contribution", "rebalance", "assets"}
      && p["api_version"] == PyStr("ruletrade.dev/simple/v0")
  {
    assert |"currency"| == 8 && |"initial_capital"| == 15 && |"recurring_contribution"| == 22;
    assert |"rebalance"| == 9 && |"assets"| == 6 && |"api_version"| == 11;
  }

  // ----- symbols -----

  predicate AllSpaces(s: string) {
    forall i | 0 <= i < |s| :: IsSpace(s[i])
  }

  /** x is s with its ASCII letters in upper case. */
  predicate IsUpperOf(x: string, s: string) {
    |x| == |s| && forall i | 0 <= i < |s| ::
      x[i] as int == if 'a' <= s[i] <= 'z' then s[i] as int - 'a' as int + 'A' as int else s[i] as int
  }

  lemma {:induction false} UpperIs(s: string)
    ensures IsUpperOf(Upper(s), s)
  {
    if s != "" {
      UpperIs(s[1..]);
      assert forall i | 0 < i < |s| :: s[i] == s[1..][i - 1] && Upper(s)[i] == Upper(s[1..])[i - 1];
    }
  }

  lemma {:induction false} TrimLeftParts(s: string) returns (k: nat)
    ensures k <= |s| && TrimLeft(s) == s[k..] && AllSpaces(s[..k])
    ensures k < |s| ==> !IsSpace(s[k])
  {
    if s != "" && IsSpace(s[0]) {
      var j := TrimLeftParts(s[1..]);
      k := j + 1;
      assert s[..k] == [s[0]] + s[1..][..j];
    } else {
      k := 0;
    }
  }

  lemma {:induction false} TrimRightParts(s: string) returns (k: nat)
    ensures k <= |s| && TrimRight(s) == s[..k] && (forall i | k <= i < |s| :: IsSpace(s[i]))
    ensures k > 0 ==> !IsSpace(s[k - 1])
  {
    if s != "" && IsSpace(s[|s| - 1]) {
      k := TrimRightParts(s[..|s| - 1]);
      assert s[..|s| - 1][..k] == s[..k];
    } else {
      k := |s|;
    }
  }

  /** A symbol is what stands between the outer white space, in upper case. */
  lemma SymbolIs(s: string) returns (from: nat, to: nat)
    ensures from <= to <= |s| && AllSpaces(s[..from]) && AllSpaces(s[to..])
    ensures from < to ==> !IsSpace(s[from]) && !IsSpace(s[to - 1])
    ensures IsUpperOf(NormalizeSymbol(s), s[from..to])
  {
    from := TrimLeftParts(s);
    var rest := s[from..];
    var k := TrimRightParts(rest);
    to := from + k;
    assert rest[..k] == s[from..to] && rest[k..] == s[to..];
    UpperIs(rest[..k]);
  }

  /** White space is what Python's `str.strip` takes off in ASCII text. */
  lemma SpaceIff(c: char)
    ensures IsSpace(c) <==> c as int in {9, 10, 11, 12, 13, 28, 29, 30, 31, 32}
  {
  }
}
