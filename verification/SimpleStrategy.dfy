/** The simple/v0 strategy: its validation and its identity. */
module SimpleStrategy {
  import opened Options
  import opened Decimals
  import opened Sorting
  import opened JsonText
  import opened CanonicalJson
  import opened Normalization
  import opened SemanticIdentity

  datatype Rebalance = Once | Monthly

  datatype Asset = Asset(symbol: string, weight: Decimal)

  datatype SimpleSpec = SimpleSpec(
    name: string,
    currency: string,
    initialCapital: Decimal,
    recurringAmount: Option<Decimal>,
    rebalance: Rebalance,
    assets: seq<Asset>)

  datatype Rejection = DuplicateSymbols | WeightsDoNotSumToOne | ContributionNeedsMonthly

  // ----- validation -----

  function UpperChar(c: char): char {
    if 'a' <= c <= 'z' then (c as int - 32) as char else c
  }

  function Upper(s: string): (r: string)
    ensures |r| == |s|
  {
    if s == "" then "" else [UpperChar(s[0])] + Upper(s[1..])
  }

  predicate IsSpace(c: char) {
    9 <= c as int <= 13 || 28 <= c as int <= 32
  }

  function TrimLeft(s: string): string {
    if s != "" && IsSpace(s[0]) then TrimLeft(s[1..]) else s
  }

  function TrimRight(s: string): string {
    if s != "" && IsSpace(s[|s| - 1]) then TrimRight(s[..|s| - 1]) else s
  }

  /** `value.strip().upper()`. */
  function NormalizeSymbol(s: string): string {
    Upper(TrimRight(TrimLeft(s)))
  }

  function NormalizeAssets(assets: seq<Asset>): (r: seq<Asset>)
    ensures |r| == |assets|
    ensures forall i | 0 <= i < |r| :: r[i] == Asset(NormalizeSymbol(assets[i].symbol), assets[i].weight)
  {
    seq(|assets|, i requires 0 <= i < |assets| => Asset(NormalizeSymbol(assets[i].symbol), assets[i].weight))
  }

  /** The field validators: what a submitted spec becomes before it is validated. */
  function Submitted(raw: SimpleSpec): SimpleSpec {
    raw.(currency := NormalizeSymbol(raw.currency), assets := NormalizeAssets(raw.assets))
  }

  /** Decimal addition under the default context. */
  function Add(a: Decimal, b: Decimal): Decimal {
    var m := Min(a.exponent, b.exponent);
    var units := Units(a, m) + Units(b, m);
    Round(Decimal(units < 0, if units < 0 then -units else units, m))
  }

  function Total(assets: seq<Asset>): Decimal {
    if assets == [] then Decimal(false, 0, 0)
    else Add(Total(assets[..|assets| - 1]), assets[|assets| - 1].weight)
  }

  /** |total - 1| is at most 10^-8. */
  predicate NearOne(total: Decimal) {
    var difference := Add(total, Decimal(true, 1, 0));
    var m := Min(difference.exponent, -8);
    -(Pow10(-8 - m) as int) <= Units(difference, m) <= Pow10(-8 - m)
  }

  function SymbolOf(a: Asset): string {
    a.symbol
  }

  function Symbols(assets: seq<Asset>): set<string> {
    set i | 0 <= i < |assets| :: assets[i].symbol
  }

  /** `validate_portfolio`: the first failing check decides. */
  function Validate(spec: SimpleSpec): Option<Rejection> {
    if |Symbols(spec.assets)| != |spec.assets| then Some(DuplicateSymbols)
    else if !NearOne(Total(spec.assets)) then Some(WeightsDoNotSumToOne)
    else if spec.recurringAmount.Some? && spec.rebalance != Monthly then Some(ContributionNeedsMonthly)
    else None
  }

  /** Counting the set of symbols finds exactly the duplicate-free lists. */
  lemma {:induction false} SymbolCount(assets: seq<Asset>)
    ensures |Symbols(assets)| <= |assets|
    ensures |Symbols(assets)| == |assets| <==> DistinctKeys(assets, SymbolOf)
  {
    if assets != [] {
      var n := |assets| - 1;
      var init, last := assets[..n], assets[n].symbol;
      SymbolCount(init);
      assert Symbols(assets) == Symbols(init) + {last};
      if last in Symbols(init) {
        assert Symbols(assets) == Symbols(init);
        var i :| 0 <= i < n && init[i].symbol == last;
        assert SymbolOf(assets[i]) == SymbolOf(assets[n]);
      } else {
        assert |Symbols(assets)| == |Symbols(init)| + 1;
        DistinctInit(assets);
      }
    }
  }

  lemma DistinctInit(assets: seq<Asset>)
    requires assets != [] && assets[|assets| - 1].symbol !in Symbols(assets[..|assets| - 1])
    ensures DistinctKeys(assets, SymbolOf) <==> DistinctKeys(assets[..|assets| - 1], SymbolOf)
  {
    var n := |assets| - 1;
    var init := assets[..n];
    if DistinctKeys(init, SymbolOf) {
      forall i, j | 0 <= i < j < |assets| ensures SymbolOf(assets[i]) != SymbolOf(assets[j]) {
        if j == n {
          assert init[i].symbol in Symbols(init);
        } else {
          assert SymbolOf(init[i]) != SymbolOf(init[j]);
        }
      }
    }
    if DistinctKeys(assets, SymbolOf) {
      forall i, j | 0 <= i < j < n ensures SymbolOf(init[i]) != SymbolOf(init[j]) {
        assert SymbolOf(assets[i]) != SymbolOf(assets[j]);
      }
    }
  }

  /** A spec is accepted only with unique symbols. */
  lemma AcceptedIsUnique(spec: SimpleSpec)
    requires Validate(spec) == None
    ensures DistinctKeys(spec.assets, SymbolOf)
  {
    SymbolCount(spec.assets);
  }

  // ----- payload -----

  function RebalanceText(r: Rebalance): string {
    if r == Once then "once" else "monthly"
  }

  function Contribution(amount: Option<Decimal>): PyValue {
    match amount
    case None => PyNone
    case Some(d) => PyDict(map["amount" := PyStr(Decimals.Text(d)), "frequency" := PyStr("monthly")])
  }

  /** The symbol and the canonical weight of each asset. */
  function Entries(assets: seq<Asset>): (r: seq<(string, string)>)
    ensures |r| == |assets|
    ensures forall i | 0 <= i < |assets| :: r[i] == (assets[i].symbol, Decimals.Text(assets[i].weight))
  {
    if assets == [] then []
    else [(assets[0].symbol, Decimals.Text(assets[0].weight))] + Entries(assets[1..])
  }

  function AssetDict(e: (string, string)): PyValue {
    PyDict(map["symbol" := PyStr(e.0), "weight" := PyStr(e.1)])
  }

  function AssetDicts(es: seq<(string, string)>): PyValue {
    PyList(seq(|es|, i requires 0 <= i < |es| => AssetDict(es[i])))
  }

  function AssetsValue(assets: seq<Asset>): PyValue {
    AssetDicts(Entries(Sort(assets, SymbolOf, StringLess)))
  }

  function PayloadDict(currency: PyValue, capital: PyValue, contribution: PyValue, rebalance: PyValue, assets: PyValue)
    : PyValue
  {
    PyDict(map[
      "api_version" := PyStr("ruletrade.dev/simple/v0"),
      "currency" := currency,
      "initial_capital" := capital,
      "recurring_contribution" := contribution,
      "rebalance" := rebalance,
      "assets" := assets
    ])
  }

  /** `_simple_semantic_payload`. */
  function Payload(spec: SimpleSpec): PyValue {
    PayloadDict(
      PyStr(spec.currency),
      PyStr(Decimals.Text(spec.initialCapital)),
      Contribution(spec.recurringAmount),
      PyStr(RebalanceText(spec.rebalance)),
      AssetsValue(spec.assets))
  }

  // ----- what the payload identifies -----

  /** The same amount, to the 28 digits that identity keeps. */
  predicate SameAmount(a: Decimal, b: Decimal) {
    SameNumber(Round(a), Round(b))
  }

  ghost predicate HoldsAll(xs: seq<Asset>, ys: seq<Asset>) {
    forall i | 0 <= i < |xs| :: exists j :: 0 <= j < |ys| && Agree(xs[i], ys[j])
  }

  predicate Agree(x: Asset, y: Asset) {
    x.symbol == y.symbol && SameAmount(x.weight, y.weight)
  }

  /** Equal in everything but the name, the order of the assets and the spelling
      of the amounts. */
  ghost predicate SameStrategy(a: SimpleSpec, b: SimpleSpec) {
    && a.currency == b.currency
    && SameAmount(a.initialCapital, b.initialCapital)
    && a.recurringAmount.Some? == b.recurringAmount.Some?
    && (a.recurringAmount.Some? ==> SameAmount(a.recurringAmount.value, b.recurringAmount.value))
    && a.rebalance == b.rebalance
    && HoldsAll(a.assets, b.assets)
    && HoldsAll(b.assets, a.assets)
  }

  function First(e: (string, string)): string {
    e.0
  }

  lemma {:induction false} InsertEntries(x: Asset, ys: seq<Asset>)
    ensures Entries(Insert(x, ys, SymbolOf, StringLess))
         == Insert((x.symbol, Decimals.Text(x.weight)), Entries(ys), First, StringLess)
  {
    if ys != [] && StringLess(SymbolOf(ys[0]), SymbolOf(x)) {
      InsertEntries(x, ys[1..]);
    } else {
      assert ([x] + ys)[1..] == ys;
    }
  }

  lemma {:induction false} SortEntries(xs: seq<Asset>)
    ensures Entries(Sort(xs, SymbolOf, StringLess)) == Sort(Entries(xs), First, StringLess)
  {
    if xs != [] {
      SortEntries(xs[1..]);
      InsertEntries(xs[0], Sort(xs[1..], SymbolOf, StringLess));
    }
  }

  ghost predicate Included(es: seq<(string, string)>, fs: seq<(string, string)>) {
    forall e :: e in es ==> e in fs
  }

  lemma EntriesAgree(xs: seq<Asset>, ys: seq<Asset>)
    ensures Included(Entries(xs), Entries(ys)) <==> HoldsAll(xs, ys)
  {
    forall i, j | 0 <= i < |xs| && 0 <= j < |ys| ensures Entries(xs)[i] == Entries(ys)[j] <==> Agree(xs[i], ys[j]) {
      TextCanonical(xs[i].weight, ys[j].weight);
    }
    if HoldsAll(xs, ys) {
      forall e | e in Entries(xs) ensures e in Entries(ys) {
        var i :| 0 <= i < |xs| && Entries(xs)[i] == e;
        var j :| 0 <= j < |ys| && Agree(xs[i], ys[j]);
        assert Entries(ys)[j] == e;
      }
    }
    if Included(Entries(xs), Entries(ys)) {
      forall i | 0 <= i < |xs| ensures exists j :: 0 <= j < |ys| && Agree(xs[i], ys[j]) {
        assert Entries(xs)[i] in Entries(ys);
        var j :| 0 <= j < |ys| && Entries(ys)[j] == Entries(xs)[i];
        assert Agree(xs[i], ys[j]);
      }
    }
  }

  lemma EntriesDistinct(xs: seq<Asset>)
    requires DistinctKeys(xs, SymbolOf)
    ensures DistinctKeys(Entries(xs), First)
  {
    forall i, j | 0 <= i < j < |xs| ensures First(Entries(xs)[i]) != First(Entries(xs)[j]) {
      assert SymbolOf(xs[i]) != SymbolOf(xs[j]);
    }
  }

  /** Sorted portfolios list the same entries exactly when each holds the other's. */
  lemma SortedEntriesIff(xs: seq<Asset>, ys: seq<Asset>)
    requires DistinctKeys(xs, SymbolOf) && DistinctKeys(ys, SymbolOf)
    ensures Entries(Sort(xs, SymbolOf, StringLess)) == Entries(Sort(ys, SymbolOf, StringLess))
       <==> HoldsAll(xs, ys) && HoldsAll(ys, xs)
  {
    EntriesAgree(xs, ys);
    EntriesAgree(ys, xs);
    SortEntries(xs);
    SortEntries(ys);
    EntriesDistinct(xs);
    EntriesDistinct(ys);
    SortsAlikeIff(Entries(xs), Entries(ys));
  }

  lemma SortsAlikeIff(es: seq<(string, string)>, fs: seq<(string, string)>)
    requires DistinctKeys(es, First) && DistinctKeys(fs, First)
    ensures Sort(es, First, StringLess) == Sort(fs, First, StringLess) <==> Included(es, fs) && Included(fs, es)
  {
    StringLessStrictTotal();
    if Sort(es, First, StringLess) == Sort(fs, First, StringLess) {
      SortPermutes(es, First, StringLess);
      SortPermutes(fs, First, StringLess);
      forall e ensures e in es <==> e in fs {
        assert e in multiset(es) <==> e in multiset(fs);
      }
    } else if Included(es, fs) && Included(fs, es) {
      PermutationsSortAlike(es, fs, First, StringLess);
    }
  }

  lemma AssetDictsInjective(es: seq<(string, string)>, fs: seq<(string, string)>)
    ensures AssetDicts(es) == AssetDicts(fs) <==> es == fs
  {
    if AssetDicts(es) == AssetDicts(fs) {
      forall i | 0 <= i < |es| ensures es[i] == fs[i] {
        var p, q := AssetDict(es[i]), AssetDict(fs[i]);
        assert AssetDicts(es).items[i] == p && AssetDicts(fs).items[i] == q;
        assert p.fields["symbol"] == PyStr(es[i].0) && q.fields["symbol"] == PyStr(fs[i].0);
        assert p.fields["weight"] == PyStr(es[i].1) && q.fields["weight"] == PyStr(fs[i].1);
      }
    }
  }

  lemma ContributionInjective(a: Option<Decimal>, b: Option<Decimal>)
    ensures Contribution(a) == Contribution(b)
       <==> a.Some? == b.Some? && (a.Some? ==> SameAmount(a.value, b.value))
  {
    if a.Some? && b.Some? {
      TextCanonical(a.value, b.value);
      assert Contribution(a).fields["amount"] == PyStr(Decimals.Text(a.value));
      assert Contribution(b).fields["amount"] == PyStr(Decimals.Text(b.value));
    }
  }

  /** Accepted specs have equal payloads exactly when they are the same strategy. */
  lemma PayloadIdentity(a: SimpleSpec, b: SimpleSpec)
    requires Validate(a) == None && Validate(b) == None
    ensures Payload(a) == Payload(b) <==> SameStrategy(a, b)
  {
    AcceptedIsUnique(a);
    AcceptedIsUnique(b);
    TextCanonical(a.initialCapital, b.initialCapital);
    ContributionInjective(a.recurringAmount, b.recurringAmount);
    SortedEntriesIff(a.assets, b.assets);
    AssetDictsInjective(Entries(Sort(a.assets, SymbolOf, StringLess)), Entries(Sort(b.assets, SymbolOf, StringLess)));
    RebalanceTextInjective(a.rebalance, b.rebalance);
    FieldsDecide(a, b);
  }

  lemma RebalanceTextInjective(a: Rebalance, b: Rebalance)
    ensures RebalanceText(a) == RebalanceText(b) <==> a == b
  {
    assert |RebalanceText(Once)| == 4 && |RebalanceText(Monthly)| == 7;
  }

  lemma PayloadEntries(v: PyValue, w: PyValue, x: PyValue, y: PyValue, z: PyValue)
    ensures
      var p := PayloadDict(v, w, x, y, z).fields;
      && "currency" in p && p["currency"] == v
      && "initial_capital" in p && p["initial_capital"] == w
      && "recurring_contribution" in p && p["recurring_contribution"] == x
      && "rebalance" in p && p["rebalance"] == y
      && "assets" in p && p["assets"] == z
  {
    assert |"currency"| == 8 && |"initial_capital"| == 15 && |"recurring_contribution"| == 22;
    assert |"rebalance"| == 9 && |"assets"| == 6 && |"api_version"| == 11;
  }

  lemma FieldsDecide(a: SimpleSpec, b: SimpleSpec)
    ensures Payload(a) == Payload(b)
       <==> && a.currency == b.currency
            && Decimals.Text(a.initialCapital) == Decimals.Text(b.initialCapital)
            && Contribution(a.recurringAmount) == Contribution(b.recurringAmount)
            && RebalanceText(a.rebalance) == RebalanceText(b.rebalance)
            && AssetsValue(a.assets) == AssetsValue(b.assets)
  {
    PayloadEntries(PyStr(a.currency), PyStr(Decimals.Text(a.initialCapital)), Contribution(a.recurringAmount),
                   PyStr(RebalanceText(a.rebalance)), AssetsValue(a.assets));
    PayloadEntries(PyStr(b.currency), PyStr(Decimals.Text(b.initialCapital)), Contribution(b.recurringAmount),
                   PyStr(RebalanceText(b.rebalance)), AssetsValue(b.assets));
  }

  /** The canonical text of an accepted spec identifies the strategy. */
  lemma SimpleTextIdentity(a: SimpleSpec, b: SimpleSpec, ja: Json, jb: Json)
    requires Validate(a) == None && Validate(b) == None
    requires Lays(ja, Payload(a)) && Lays(jb, Payload(b))
    ensures Dumps(ja) == Dumps(jb) <==> SameStrategy(a, b)
  {
    DumpsCharacterizes(ja, jb);
    ToValueInjective(Payload(a), Payload(b));
    PayloadIdentity(a, b);
  }

  // ----- submitted specs -----

  /** x and y differ only in the case of letters. */
  predicate SameLetters(x: string, y: string) {
    |x| == |y| && forall i | 0 <= i < |x| :: UpperChar(x[i]) == UpperChar(y[i])
  }

  lemma {:induction false} SameLettersUpper(x: string, y: string)
    requires SameLetters(x, y)
    ensures Upper(x) == Upper(y)
  {
    if x != "" {
      assert UpperChar(x[0]) == UpperChar(y[0]);
      assert forall i | 0 <= i < |x| - 1 :: x[1..][i] == x[i + 1] && y[1..][i] == y[i + 1];
      SameLettersUpper(x[1..], y[1..]);
    }
  }

  lemma {:induction false} SameLettersTrimLeft(x: string, y: string)
    requires SameLetters(x, y)
    ensures SameLetters(TrimLeft(x), TrimLeft(y))
  {
    if x != "" {
      assert UpperChar(x[0]) == UpperChar(y[0]);
      assert forall i | 0 <= i < |x| - 1 :: x[1..][i] == x[i + 1] && y[1..][i] == y[i + 1];
      SameLettersTrimLeft(x[1..], y[1..]);
    }
  }

  lemma {:induction false} SameLettersTrimRight(x: string, y: string)
    requires SameLetters(x, y)
    ensures SameLetters(TrimRight(x), TrimRight(y))
  {
    if x != "" {
      var n := |x| - 1;
      assert UpperChar(x[n]) == UpperChar(y[n]);
      assert forall i | 0 <= i < n :: x[..n][i] == x[i] && y[..n][i] == y[i];
      SameLettersTrimRight(x[..n], y[..n]);
    }
  }

  lemma SameLettersNormalize(x: string, y: string)
    requires SameLetters(x, y)
    ensures NormalizeSymbol(x) == NormalizeSymbol(y)
  {
    SameLettersTrimLeft(x, y);
    SameLettersTrimRight(TrimLeft(x), TrimLeft(y));
    SameLettersUpper(TrimRight(TrimLeft(x)), TrimRight(TrimLeft(y)));
  }

  /** The two submissions differ only in their names and in the case of letters. */
  predicate SameButCase(a: SimpleSpec, b: SimpleSpec) {
    && a == b.(name := a.name, currency := a.currency, assets := a.assets)
    && SameLetters(a.currency, b.currency)
    && |a.assets| == |b.assets|
    && forall i | 0 <= i < |a.assets| ::
      a.assets[i].weight == b.assets[i].weight && SameLetters(a.assets[i].symbol, b.assets[i].symbol)
  }

  /** Letter case never matters: such submissions are accepted or rejected alike,
      and have the same payload. */
  lemma CaseIsInvisible(a: SimpleSpec, b: SimpleSpec)
    requires SameButCase(a, b)
    ensures Validate(Submitted(a)) == Validate(Submitted(b))
    ensures Payload(Submitted(a)) == Payload(Submitted(b))
  {
    SameLettersNormalize(a.currency, b.currency);
    forall i | 0 <= i < |a.assets| ensures NormalizeAssets(a.assets)[i] == NormalizeAssets(b.assets)[i] {
      SameLettersNormalize(a.assets[i].symbol, b.assets[i].symbol);
    }
    assert NormalizeAssets(a.assets) == NormalizeAssets(b.assets);
  }

  /** One symbol in two spellings is one symbol twice. */
  lemma SpellingsCollide(raw: SimpleSpec, i: nat, j: nat)
    requires i < j < |raw.assets| && SameLetters(raw.assets[i].symbol, raw.assets[j].symbol)
    ensures Validate(Submitted(raw)) == Some(DuplicateSymbols)
  {
    var assets := NormalizeAssets(raw.assets);
    SameLettersNormalize(raw.assets[i].symbol, raw.assets[j].symbol);
    SymbolCount(assets);
    assert SymbolOf(assets[i]) == SymbolOf(assets[j]);
  }

  // ----- the payload can be printed -----

  lemma PayloadIsPlain(spec: SimpleSpec)
    ensures Plain(Payload(spec))
  {
    AssetsArePlain(Entries(Sort(spec.assets, SymbolOf, StringLess)));
    ContributionIsPlain(spec.recurringAmount);
  }

  lemma ContributionIsPlain(amount: Option<Decimal>)
    ensures Plain(Contribution(amount))
  {
  }

  lemma AssetsArePlain(es: seq<(string, string)>)
    ensures Plain(AssetDicts(es))
  {
    forall i | 0 <= i < |es| ensures Plain(AssetDict(es[i])) {
    }
  }

  /** Every simple strategy has a canonical text. */
  lemma SimpleTextExists(spec: SimpleSpec) returns (j: Json)
    ensures Lays(j, Payload(spec))
  {
    PayloadIsPlain(spec);
    j := LayoutExists(Payload(spec));
  }
}
