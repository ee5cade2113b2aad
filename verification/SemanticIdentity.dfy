/** Strategy identity: the canonical JSON text of a normalized payload. */
module SemanticIdentity {
  import opened Decimals
  import opened JsonText
  import opened CanonicalJson
  import opened Normalization

  /** A value that `json.dumps` can print without a tuple or a Decimal in it. */
  ghost predicate Plain(v: PyValue) {
    match v
    case PyDecimal(_) => false
    case PyTuple(_) => false
    case PyList(items) => forall i | 0 <= i < |items| :: Plain(items[i])
    case PyDict(m) => forall k | k in m :: Plain(m[k])
    case _ => true
  }

  function IntToken(n: int): string {
    if n < 0 then "-" + Digits(-n) else Digits(n)
  }

  function ToValue(v: PyValue): Value
    requires Plain(v)
  {
    match v
    case PyNone => NullValue
    case PyBool(b) => BoolValue(b)
    case PyInt(n) => NumberValue(IntToken(n))
    case PyStr(s) => TextValue(s)
    case PyList(items) => ArrayValue(seq(|items|, i requires 0 <= i < |items| => ToValue(items[i])))
    case PyDict(m) => ObjectValue(map k | k in m :: ToValue(m[k]))
  }

  /** j lists the entries of v's dictionaries in some insertion order. */
  ghost predicate Lays(j: Json, v: PyValue) {
    Plain(v) && WellFormed(j) && Meaning(j) == ToValue(v)
  }

  lemma {:induction false} NormalizedPlain(table: Table, v: PyValue)
    ensures Plain(Normalized(table, v))
  {
    match v
    case PyDict(m) =>
      forall k | k in m ensures Plain(Normalized(table, m[k])) { NormalizedPlain(table, m[k]); }
    case PyList(items) =>
      forall i | 0 <= i < |items| ensures Plain(Normalized(table, items[i])) { NormalizedPlain(table, items[i]); }
    case PyTuple(items) =>
      forall i | 0 <= i < |items| ensures Plain(Normalized(table, items[i])) { NormalizedPlain(table, items[i]); }
    case _ =>
  }

  lemma IntTokenInjective(a: int, b: int)
    ensures IntToken(a) == IntToken(b) <==> a == b
  {
    var x, y := if a < 0 then -a else a, if b < 0 then -b else b;
    ReadDigitsOfDigits(x);
    ReadDigitsOfDigits(y);
    assert IsDigit(Digits(x)[0]) && IsDigit(Digits(y)[0]);
    assert ("-" + Digits(x))[1..] == Digits(x) && ("-" + Digits(y))[1..] == Digits(y);
  }

  lemma {:induction false} ToValueInjective(a: PyValue, b: PyValue)
    requires Plain(a) && Plain(b)
    ensures ToValue(a) == ToValue(b) <==> a == b
    decreases a
  {
    match (a, b)
    case (PyInt(x), PyInt(y)) => IntTokenInjective(x, y);
    case (PyList(xs), PyList(ys)) =>
      if ToValue(a) == ToValue(b) {
        forall i | 0 <= i < |xs| ensures xs[i] == ys[i] {
          assert ToValue(a).items[i] == ToValue(b).items[i];
          ToValueInjective(xs[i], ys[i]);
        }
      }
    case (PyDict(m), PyDict(n)) =>
      if ToValue(a) == ToValue(b) {
        assert m.Keys == ToValue(a).fields.Keys == ToValue(b).fields.Keys == n.Keys;
        forall k | k in m ensures m[k] == n[k] {
          assert ToValue(a).fields[k] == ToValue(b).fields[k];
          ToValueInjective(m[k], n[k]);
        }
      }
    case _ =>
  }

  // ----- every value can be laid out -----

  lemma IntTokenIsNumber(n: int)
    ensures NumberToken(IntToken(n))
  {
    var ds := Digits(if n < 0 then -n else n);
    assert forall i | 0 <= i < |ds| :: IsDigit(ds[i]);
    assert NumberChar('-');
  }

  lemma {:induction false} LayoutExists(v: PyValue) returns (j: Json)
    requires Plain(v)
    ensures Lays(j, v)
    decreases v, 1
  {
    match v
    case PyNone => j := Null;
    case PyBool(b) => j := Bool(b);
    case PyInt(n) =>
      IntTokenIsNumber(n);
      j := Number(IntToken(n));
    case PyStr(s) => j := JsonText.Text(s);
    case PyList(items) => j := ListLayout(v);
    case PyDict(m) => j := DictLayout(v);
  }

  lemma {:induction false} ListLayout(v: PyValue) returns (j: Json)
    requires Plain(v) && v.PyList?
    ensures Lays(j, v)
    decreases v, 0
  {
    var js: seq<Json> := [];
    for i := 0 to |v.items|
      invariant |js| == i && forall n | 0 <= n < i :: Lays(js[n], v.items[n])
    {
      var item := LayoutExists(v.items[i]);
      js := js + [item];
    }
    j := Array(js);
    assert Meaning(j).items == ToValue(v).items;
  }

  lemma {:induction false} DictLayout(v: PyValue) returns (j: Json)
    requires Plain(v) && v.PyDict?
    ensures Lays(j, v)
    decreases v, 0
  {
    var m := v.fields;
    var ms: seq<Member> := [];
    var todo := m.Keys;
    while todo != {}
      invariant todo <= m.Keys && WellFormed(Object(ms))
      invariant Fields(ms) == Entries(v, m.Keys - todo)
      decreases |todo|
    {
      var key :| key in todo;
      var value := LayoutExists(m[key]);
      PrependMember(ms, key, value);
      ms := [Member(key, value)] + ms;
      assert m.Keys - (todo - {key}) == (m.Keys - todo) + {key};
      todo := todo - {key};
    }
    j := Object(ms);
    assert Entries(v, m.Keys - {}) == ToValue(v).fields;
  }

  /** The part of v's entries with the given keys, as the value they denote. */
  ghost function Entries(v: PyValue, keys: set<string>): map<string, Value>
    requires v.PyDict? && Plain(v) && keys <= v.fields.Keys
  {
    map k | k in keys :: ToValue(v.fields[k])
  }

  lemma PrependMember(ms: seq<Member>, key: string, value: Json)
    requires WellFormed(Object(ms)) && WellFormed(value) && key !in Fields(ms)
    ensures WellFormed(Object([Member(key, value)] + ms))
    ensures Fields([Member(key, value)] + ms) == Fields(ms)[key := Meaning(value)]
  {
    var more := [Member(key, value)] + ms;
    assert more[1..] == ms;
    NamesInFields(ms);
    forall i, j | 0 <= i < j < |more| ensures NameOf(more[i]) != NameOf(more[j]) {
      if i > 0 {
        assert NameOf(ms[i - 1]) != NameOf(ms[j - 1]);
      }
    }
  }

  lemma {:induction false} NamesInFields(ms: seq<Member>)
    ensures forall i | 0 <= i < |ms| :: ms[i].name in Fields(ms)
  {
    if ms != [] {
      NamesInFields(ms[1..]);
      assert forall i | 1 <= i < |ms| :: ms[i] == ms[1..][i - 1];
    }
  }

  // ----- identity -----

  /** Every payload has a canonical text. */
  lemma CanonicalTextExists(table: Table, v: PyValue) returns (j: Json)
    ensures Lays(j, Normalized(table, v))
  {
    NormalizedPlain(table, v);
    j := LayoutExists(Normalized(table, v));
  }

  /** Two payloads get the same canonical text, whatever order their entries
      were inserted in, exactly when they have the same content. */
  lemma CanonicalTextIdentity(table: Table, a: PyValue, b: PyValue, ja: Json, jb: Json)
    requires PlainDefaults(table)
    requires Lays(ja, Normalized(table, a)) && Lays(jb, Normalized(table, b))
    ensures Dumps(ja) == Dumps(jb) <==> SameContent(table, a, b)
  {
    DumpsCharacterizes(ja, jb);
    ToValueInjective(Normalized(table, a), Normalized(table, b));
    NormalizedIff(table, a, b);
  }

  /** Saving and reopening a strategy keeps its canonical text, however the
      reopened payload expands its literals and orders its entries. */
  lemma ReopenKeepsText(a: PyValue, b: PyValue, ja: Json, jb: Json)
    requires Expands(DAILY_VALUE_DEFAULTS, a, b)
    requires Lays(ja, Normalized(DAILY_VALUE_DEFAULTS, a)) && Lays(jb, Normalized(DAILY_VALUE_DEFAULTS, b))
    ensures Dumps(ja) == Dumps(jb)
  {
    DailyValueTable();
    ExpandsSameContent(DAILY_VALUE_DEFAULTS, a, b);
    CanonicalTextIdentity(DAILY_VALUE_DEFAULTS, a, b, ja, jb);
  }

  /** In particular, a literal that reopens through DailyValueNode keeps its text. */
  lemma ReopenedLiteralKeepsText(m: map<string, PyValue>, one: Decimal, ja: Json, jb: Json)
    requires Decimals.Text(one) == "1" && IsCompactLiteral(DAILY_VALUE_DEFAULTS, m)
    requires Lays(ja, Normalized(DAILY_VALUE_DEFAULTS, PyDict(m)))
    requires Lays(jb, Normalized(DAILY_VALUE_DEFAULTS, PyDict(m + AsFields(Spelled(one)))))
    ensures Dumps(ja) == Dumps(jb)
  {
    DailyValueNodeExpands(m, one);
    ReopenKeepsText(PyDict(m), PyDict(m + AsFields(Spelled(one))), ja, jb);
  }
}
