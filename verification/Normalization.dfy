/** Payload normalization before hashing: decimals become canonical text, tuples
    become lists, and representation-only defaults of expanded literal nodes are
    dropped, at every depth. */
module Normalization {
  import opened Decimals
  import opened Options
  import opened JsonText
  import opened CanonicalJson

  /** A payload as `model_dump` hands it over, with string keys. */
  datatype PyValue =
    | PyNone
    | PyBool(b: bool)
    | PyInt(n: int)
    | PyStr(s: string)
    | PyDecimal(d: Decimal)
    | PyList(items: seq<PyValue>)
    | PyTuple(items: seq<PyValue>)
    | PyDict(fields: map<string, PyValue>)

  /** Representation-only entries: a key and the value that may be left out. */
  type Table = seq<(string, PyValue)>

  /** The DailyValue defaults that a compact literal gains on a round trip. */
  const DAILY_VALUE_DEFAULTS: Table := [
    ("operands", PyList([])),
    ("subject_kind", PyNone),
    ("subject_id", PyNone),
    ("binding_id", PyNone),
    ("field", PyNone),
    ("basis", PyNone),
    ("observations", PyNone),
    ("skip", PyInt(0)),
    ("axis", PyNone),
    ("reduction", PyNone),
    ("missing_policy", PyStr("require_all")),
    ("minimum_count", PyInt(1)),
    ("minimum_fraction", PyStr("1")),
    ("arithmetic", PyNone)
  ]

  /** Python's `==` of a normalized value and a default: True is 1 and False is 0. */
  predicate EqualsDefault(v: PyValue, default: PyValue) {
    v == default || (v.PyBool? && default == PyInt(if v.b then 1 else 0))
  }

  predicate Matches(entry: (string, PyValue), key: string, v: PyValue) {
    entry.0 == key && EqualsDefault(v, entry.1)
  }

  predicate IsDefaultEntry(table: Table, key: string, v: PyValue) {
    exists i | 0 <= i < |table| :: Matches(table[i], key, v)
  }

  /** A dictionary that carries an expanded literal. */
  predicate IsExpandedLiteral(m: map<string, PyValue>) {
    "kind" in m && m["kind"] == PyStr("literal") && "operands" in m
  }

  /** The entries that survive: all of them, unless the node is an expanded literal. */
  function DropDefaults(table: Table, m: map<string, PyValue>): map<string, PyValue> {
    if IsExpandedLiteral(m) then map k | k in m && !IsDefaultEntry(table, k, m[k]) :: m[k] else m
  }

  function Normalized(table: Table, v: PyValue): PyValue {
    match v
    case PyDecimal(d) => PyStr(Decimals.Text(d))
    case PyDict(m) => PyDict(DropDefaults(table, map k | k in m :: Normalized(table, m[k])))
    case PyList(items) => PyList(seq(|items|, i requires 0 <= i < |items| => Normalized(table, items[i])))
    case PyTuple(items) => PyList(seq(|items|, i requires 0 <= i < |items| => Normalized(table, items[i])))
    case _ => v
  }

  /** `_normalize_value`: rebuilds the value, popping defaults from each rebuilt
      dictionary in table order. */
  method NormalizeValue(table: Table, v: PyValue) returns (r: PyValue)
    ensures r == Normalized(table, v)
    decreases v
  {
    match v
    case PyDecimal(d) => r := PyStr(Decimals.Text(d));
    case PyDict(m) =>
      var normalized: map<string, PyValue> := map[];
      var todo := m.Keys;
      while todo != {}
        invariant todo <= m.Keys && normalized.Keys == m.Keys - todo
        invariant forall k | k in normalized :: normalized[k] == Normalized(table, m[k])
        decreases |todo|
      {
        var key :| key in todo;
        var item := NormalizeValue(table, m[key]);
        normalized := normalized[key := item];
        todo := todo - {key};
      }
      assert normalized == map k | k in m :: Normalized(table, m[k]);
      var kept := PopDefaults(table, normalized);
      r := PyDict(kept);
    case PyList(items) =>
      var out := NormalizeItems(table, items);
      r := PyList(out);
    case PyTuple(items) =>
      var out := NormalizeItems(table, items);
      r := PyList(out);
    case _ => r := v;
  }

  method NormalizeItems(table: Table, items: seq<PyValue>) returns (out: seq<PyValue>)
    ensures |out| == |items| && forall i | 0 <= i < |items| :: out[i] == Normalized(table, items[i])
    decreases items
  {
    out := [];
    for i := 0 to |items|
      invariant |out| == i && forall j | 0 <= j < i :: out[j] == Normalized(table, items[j])
    {
      var item := NormalizeValue(table, items[i]);
      out := out + [item];
    }
  }

  method PopDefaults(table: Table, m: map<string, PyValue>) returns (kept: map<string, PyValue>)
    ensures kept == DropDefaults(table, m)
  {
    kept := m;
    if IsExpandedLiteral(m) {
      for n := 0 to |table|
        invariant forall k :: k in kept <==> k in m && !IsDefaultEntry(table[..n], k, m[k])
        invariant forall k | k in kept :: kept[k] == m[k]
      {
        var (key, default) := table[n];
        EarlierEntries(table, n);
        if key in kept && EqualsDefault(kept[key], default) {
          kept := kept - {key};
        }
      }
      assert table[..|table|] == table;
    }
  }

  lemma EarlierEntries(table: Table, n: nat)
    requires n < |table|
    ensures forall k, v :: IsDefaultEntry(table[..n + 1], k, v)
              <==> IsDefaultEntry(table[..n], k, v) || Matches(table[n], k, v)
  {
    forall k, v | IsDefaultEntry(table[..n], k, v) ensures IsDefaultEntry(table[..n + 1], k, v) {
      var i :| 0 <= i < n && Matches(table[..n][i], k, v);
      assert table[..n + 1][i] == table[..n][i];
    }
    forall k, v | Matches(table[n], k, v) ensures IsDefaultEntry(table[..n + 1], k, v) {
      assert table[..n + 1][n] == table[n];
    }
  }

  // ----- what normalization identifies, said without normalizing -----

  predicate IsText(v: PyValue) {
    v.PyStr? || v.PyDecimal?
  }

  function TextOf(v: PyValue): string
    requires IsText(v)
  {
    if v.PyStr? then v.s else Decimals.Text(v.d)
  }

  predicate IsSequence(v: PyValue) {
    v.PyList? || v.PyTuple?
  }

  /** v is the default, in any of the representations that normalize to it. */
  predicate Spells(v: PyValue, default: PyValue) {
    || EqualsDefault(v, default)
    || (v.PyTuple? && v.items == [] && default == PyList([]))
    || (v.PyDecimal? && default == PyStr(Decimals.Text(v.d)))
  }

  predicate SpellsDefault(table: Table, key: string, v: PyValue) {
    exists i | 0 <= i < |table| :: table[i].0 == key && Spells(v, table[i].1)
  }

  /** The entry carries meaning: it is present and not a spelled-out default of
      an expanded literal. */
  predicate Essential(table: Table, m: map<string, PyValue>, key: string) {
    key in m && !(IsExpandedLiteral(m) && SpellsDefault(table, key, m[key]))
  }

  /** Two payloads differ only by list versus tuple, by a decimal versus its
      canonical text, and by spelled-out defaults of expanded literals. */
  ghost predicate SameContent(table: Table, a: PyValue, b: PyValue)
    decreases a
  {
    match a
    case PyDict(m) =>
      && b.PyDict?
      && (forall k :: Essential(table, m, k) <==> Essential(table, b.fields, k))
      && (forall k | k in m && Essential(table, m, k) && Essential(table, b.fields, k) ::
            SameContent(table, m[k], b.fields[k]))
    case PyList(items) =>
      IsSequence(b) && |b.items| == |items| && forall i | 0 <= i < |items| :: SameContent(table, items[i], b.items[i])
    case PyTuple(items) =>
      IsSequence(b) && |b.items| == |items| && forall i | 0 <= i < |items| :: SameContent(table, items[i], b.items[i])
    case PyStr(s) => IsText(b) && TextOf(b) == s
    case PyDecimal(d) => IsText(b) && TextOf(b) == Decimals.Text(d)
    case _ => a == b
  }

  /** Defaults are already normalized scalars or the empty list. */
  predicate PlainDefaults(table: Table) {
    forall i | 0 <= i < |table| ::
      table[i].1.PyNone? || table[i].1.PyInt? || table[i].1.PyStr? || table[i].1 == PyList([])
  }

  lemma NormalizedSpells(table: Table, key: string, v: PyValue)
    requires PlainDefaults(table)
    ensures IsDefaultEntry(table, key, Normalized(table, v)) <==> SpellsDefault(table, key, v)
  {
    forall i | 0 <= i < |table|
      ensures EqualsDefault(Normalized(table, v), table[i].1) <==> Spells(v, table[i].1)
    {
    }
  }

  function NormalizedFields(table: Table, m: map<string, PyValue>): map<string, PyValue> {
    map k | k in m :: Normalized(table, m[k])
  }

  /** A decimal never prints as the word that marks a literal. */
  lemma NormalizedLiteral(table: Table, m: map<string, PyValue>)
    ensures IsExpandedLiteral(NormalizedFields(table, m)) <==> IsExpandedLiteral(m)
  {
    if "kind" in m && m["kind"].PyDecimal? {
      DecimalIsNoWord(m["kind"].d);
    }
  }

  lemma DecimalIsNoWord(d: Decimal)
    ensures Decimals.Text(d) != "literal"
  {
    TextStart(d);
    assert "literal"[0] == 'l';
  }

  /** The surviving keys of a normalized dictionary are the essential ones. */
  lemma SurvivingKeys(table: Table, m: map<string, PyValue>, key: string)
    requires PlainDefaults(table)
    ensures key in Normalized(table, PyDict(m)).fields <==> Essential(table, m, key)
    ensures Essential(table, m, key) ==> Normalized(table, PyDict(m)).fields[key] == Normalized(table, m[key])
  {
    var n := NormalizedFields(table, m);
    NormalizedLiteral(table, m);
    assert Normalized(table, PyDict(m)) == PyDict(DropDefaults(table, n));
    if key in m {
      NormalizedSpells(table, key, m[key]);
      assert n[key] == Normalized(table, m[key]);
    }
  }

  /** Normalization identifies exactly the payloads with the same content. */
  lemma {:induction false} NormalizedIff(table: Table, a: PyValue, b: PyValue)
    requires PlainDefaults(table)
    ensures Normalized(table, a) == Normalized(table, b) <==> SameContent(table, a, b)
    decreases a, 1
  {
    match a
    case PyDict(m) => if b.PyDict? { DictNormalizedIff(table, a, b); }
    case PyList(items) => if IsSequence(b) { ItemsNormalizedIff(table, a, b); }
    case PyTuple(items) => if IsSequence(b) { ItemsNormalizedIff(table, a, b); }
    case _ =>
  }

  lemma {:induction false} ItemsNormalizedIff(table: Table, a: PyValue, b: PyValue)
    requires PlainDefaults(table) && IsSequence(a) && IsSequence(b)
    ensures Normalized(table, a) == Normalized(table, b) <==> SameContent(table, a, b)
    decreases a, 0
  {
    var p, q := Normalized(table, a).items, Normalized(table, b).items;
    if |a.items| == |b.items| {
      forall i | 0 <= i < |a.items| ensures p[i] == q[i] <==> SameContent(table, a.items[i], b.items[i]) {
        NormalizedIff(table, a.items[i], b.items[i]);
      }
    }
  }

  lemma {:induction false} DictNormalizedIff(table: Table, a: PyValue, b: PyValue)
    requires PlainDefaults(table) && a.PyDict? && b.PyDict?
    ensures Normalized(table, a) == Normalized(table, b) <==> SameContent(table, a, b)
    decreases a, 0
  {
    var m, n := a.fields, b.fields;
    forall k | k in m && Essential(table, m, k) && Essential(table, n, k)
      ensures Normalized(table, m[k]) == Normalized(table, n[k]) <==> SameContent(table, m[k], n[k])
    {
      NormalizedIff(table, m[k], n[k]);
    }
    SameSurvivors(table, a, b);
  }

  /** Dictionaries normalize alike when the same keys survive with the same values. */
  lemma SameSurvivors(table: Table, a: PyValue, b: PyValue)
    requires PlainDefaults(table) && a.PyDict? && b.PyDict?
    ensures Normalized(table, a) == Normalized(table, b)
       <==> && (forall k :: Essential(table, a.fields, k) <==> Essential(table, b.fields, k))
            && (forall k | Essential(table, a.fields, k) && Essential(table, b.fields, k) ::
                  Normalized(table, a.fields[k]) == Normalized(table, b.fields[k]))
  {
    var p, q := Normalized(table, a).fields, Normalized(table, b).fields;
    forall k
      ensures k in p <==> Essential(table, a.fields, k)
      ensures k in q <==> Essential(table, b.fields, k)
      ensures k in p ==> p[k] == Normalized(table, a.fields[k])
      ensures k in q ==> q[k] == Normalized(table, b.fields[k])
    {
      SurvivingKeys(table, a.fields, k);
      SurvivingKeys(table, b.fields, k);
    }
  }

  /** Normalizing twice is normalizing once. */
  lemma {:induction false} NormalizedIdempotent(table: Table, v: PyValue)
    ensures Normalized(table, Normalized(table, v)) == Normalized(table, v)
  {
    match v
    case PyDict(m) =>
      var n := NormalizedFields(table, m);
      var d := DropDefaults(table, n);
      forall k | k in d ensures Normalized(table, d[k]) == d[k] {
        NormalizedIdempotent(table, m[k]);
      }
      assert NormalizedFields(table, d) == d;
      assert DropDefaults(table, d) == d;
    case PyList(items) =>
      forall i | 0 <= i < |items|
          ensures Normalized(table, Normalized(table, items[i])) == Normalized(table, items[i]) {
        NormalizedIdempotent(table, items[i]);
      }
    case PyTuple(items) =>
      forall i | 0 <= i < |items|
          ensures Normalized(table, Normalized(table, items[i])) == Normalized(table, items[i]) {
        NormalizedIdempotent(table, items[i]);
      }
    case _ =>
  }

  // ----- compact literals and their expansions -----

  predicate TableKey(table: Table, key: string) {
    exists i | 0 <= i < |table| :: table[i].0 == key
  }

  /** A literal written without any of the table's keys. */
  ghost predicate IsCompactLiteral(table: Table, m: map<string, PyValue>) {
    "kind" in m && m["kind"] == PyStr("literal") && forall k | k in m :: !TableKey(table, k)
  }

  /** b is a with some of its compact literals expanded, at any depth: such a
      node gains entries that spell defaults, `operands` among them. Sequences may
      change kind, and text may be respelled. */
  ghost predicate Expands(table: Table, a: PyValue, b: PyValue)
    decreases a
  {
    match a
    case PyDict(m) =>
      && b.PyDict?
      && m.Keys <= b.fields.Keys
      && (forall k | k in m && k in b.fields :: Expands(table, m[k], b.fields[k]))
      && (b.fields.Keys == m.Keys
          || (&& IsCompactLiteral(table, m)
              && "operands" in b.fields
              && forall k | k in b.fields.Keys - m.Keys :: SpellsDefault(table, k, b.fields[k])))
    case PyList(items) =>
      IsSequence(b) && |b.items| == |items| && forall i | 0 <= i < |items| :: Expands(table, items[i], b.items[i])
    case PyTuple(items) =>
      IsSequence(b) && |b.items| == |items| && forall i | 0 <= i < |items| :: Expands(table, items[i], b.items[i])
    case PyStr(_) => IsText(b) && TextOf(b) == TextOf(a)
    case PyDecimal(_) => IsText(b) && TextOf(b) == TextOf(a)
    case _ => a == b
  }

  lemma ExpandsSpelling(table: Table, a: PyValue, b: PyValue, key: string)
    requires PlainDefaults(table) && Expands(table, a, b)
    ensures SpellsDefault(table, key, a) <==> SpellsDefault(table, key, b)
  {
    forall i | 0 <= i < |table| ensures Spells(a, table[i].1) <==> Spells(b, table[i].1) {
    }
  }

  lemma ExpandsLiteral(table: Table, a: PyValue, b: PyValue)
    requires Expands(table, a, b)
    ensures a == PyStr("literal") <==> b == PyStr("literal")
  {
    if a.PyDecimal? {
      DecimalIsNoWord(a.d);
    }
    if b.PyDecimal? {
      DecimalIsNoWord(b.d);
    }
  }

  lemma SameKeysEssential(table: Table, m: map<string, PyValue>, n: map<string, PyValue>, key: string)
    requires PlainDefaults(table) && m.Keys == n.Keys
    requires forall k | k in m :: Expands(table, m[k], n[k])
    ensures Essential(table, m, key) <==> Essential(table, n, key)
  {
    if "kind" in m {
      ExpandsLiteral(table, m["kind"], n["kind"]);
    }
    assert IsExpandedLiteral(m) <==> IsExpandedLiteral(n);
    if key in m {
      ExpandsSpelling(table, m[key], n[key], key);
    }
  }

  /** The expanded dictionary has the same essential entries. */
  lemma ExpandsEssential(table: Table, a: PyValue, b: PyValue, key: string)
    requires PlainDefaults(table) && TableKey(table, "operands")
    requires a.PyDict? && Expands(table, a, b)
    ensures Essential(table, a.fields, key) <==> Essential(table, b.fields, key)
  {
    var m, n := a.fields, b.fields;
    if n.Keys == m.Keys {
      SameKeysEssential(table, m, n, key);
    } else {
      ExpandsLiteral(table, m["kind"], n["kind"]);
      assert IsExpandedLiteral(n) && !IsExpandedLiteral(m);
      if key in m {
        assert !SpellsDefault(table, key, n[key]);
      }
    }
  }

  lemma {:induction false} ExpandsSameContent(table: Table, a: PyValue, b: PyValue)
    requires PlainDefaults(table) && TableKey(table, "operands") && Expands(table, a, b)
    ensures SameContent(table, a, b)
    decreases a
  {
    match a
    case PyDict(m) =>
      forall k ensures Essential(table, m, k) <==> Essential(table, b.fields, k) {
        ExpandsEssential(table, a, b, k);
      }
      forall k | k in m && Essential(table, m, k) && Essential(table, b.fields, k)
        ensures SameContent(table, m[k], b.fields[k])
      {
        ExpandsSameContent(table, m[k], b.fields[k]);
      }
    case PyList(items) =>
      forall i | 0 <= i < |items| ensures SameContent(table, items[i], b.items[i]) {
        ExpandsSameContent(table, items[i], b.items[i]);
      }
    case PyTuple(items) =>
      forall i | 0 <= i < |items| ensures SameContent(table, items[i], b.items[i]) {
        ExpandsSameContent(table, items[i], b.items[i]);
      }
    case _ =>
  }

  /** Expanding compact literals anywhere leaves the normal form unchanged. */
  lemma ExpansionInvisible(table: Table, a: PyValue, b: PyValue)
    requires PlainDefaults(table) && TableKey(table, "operands") && Expands(table, a, b)
    ensures Normalized(table, a) == Normalized(table, b)
  {
    ExpandsSameContent(table, a, b);
    NormalizedIff(table, a, b);
  }

  /** The fourteen DailyValue defaults meet what the results above ask of a table. */
  lemma DailyValueTable()
    ensures PlainDefaults(DAILY_VALUE_DEFAULTS) && TableKey(DAILY_VALUE_DEFAULTS, "operands")
    ensures |DAILY_VALUE_DEFAULTS| == 14 && !TableKey(DAILY_VALUE_DEFAULTS, "kind")
  {
    assert DAILY_VALUE_DEFAULTS[0].0 == "operands";
  }

  /** What DailyValueNode spells out when it reads a compact literal: the defaults
      of its fields, with a tuple and the Decimal one as `model_dump` hands them over. */
  function Spelled(one: Decimal): (r: Table)
    ensures |r| == 14
  {[
    ("operands", PyTuple([])),
    ("subject_kind", PyNone),
    ("subject_id", PyNone),
    ("binding_id", PyNone),
    ("field", PyNone),
    ("basis", PyNone),
    ("observations", PyNone),
    ("skip", PyInt(0)),
    ("axis", PyNone),
    ("reduction", PyNone),
    ("missing_policy", PyStr("require_all")),
    ("minimum_count", PyInt(1)),
    ("minimum_fraction", PyDecimal(one)),
    ("arithmetic", PyNone)
  ]}

  /** The dictionary with a table's entries. */
  function AsFields(table: Table): map<string, PyValue> {
    if table == [] then map[]
    else
      var n := |table| - 1;
      AsFields(table[..n])[table[n].0 := table[n].1]
  }

  lemma {:induction false} AsFieldsEntry(table: Table, key: string)
    ensures key in AsFields(table) <==> TableKey(table, key)
    ensures key in AsFields(table) ==> exists i :: 0 <= i < |table| && table[i] == (key, AsFields(table)[key])
  {
    if table != [] {
      var n := |table| - 1;
      var init := table[..n];
      AsFieldsEntry(init, key);
      LastTableKey(table, key);
      if key == table[n].0 {
        assert table[n] == (key, AsFields(table)[key]);
      } else if key in AsFields(init) {
        var i :| 0 <= i < n && init[i] == (key, AsFields(init)[key]);
        assert table[i] == (key, AsFields(table)[key]);
      }
    }
  }

  lemma LastTableKey(table: Table, key: string)
    requires table != []
    ensures TableKey(table, key) <==> TableKey(table[..|table| - 1], key) || table[|table| - 1].0 == key
  {
    if TableKey(table, key) && table[|table| - 1].0 != key {
      var i :| 0 <= i < |table| && table[i].0 == key;
      assert table[..|table| - 1][i].0 == key;
    }
  }

  /** The second table states the defaults of the first, entry by entry. */
  ghost predicate SpellsTable(table: Table, spelled: Table) {
    && |spelled| == |table|
    && forall i | 0 <= i < |table| :: spelled[i].0 == table[i].0 && Spells(spelled[i].1, table[i].1)
  }

  lemma SpelledDefaults(one: Decimal)
    requires Decimals.Text(one) == "1"
    ensures SpellsTable(DAILY_VALUE_DEFAULTS, Spelled(one))
  {
    forall i | 0 <= i < 14
      ensures Spelled(one)[i].0 == DAILY_VALUE_DEFAULTS[i].0
      ensures Spells(Spelled(one)[i].1, DAILY_VALUE_DEFAULTS[i].1)
    {
      SpelledDefault(one, i);
    }
  }

  /** The tables agree except in the tuple and the Decimal. */
  lemma SameEntry(one: Decimal, i: nat)
    requires i < 14 && i != 0 && i != 12
    ensures Spelled(one)[i] == DAILY_VALUE_DEFAULTS[i]
  {
    assert i < 7 || i == 7 || i == 8 || i == 9 || i == 10 || i == 11 || i == 13;
  }

  lemma SpelledDefault(one: Decimal, i: nat)
    requires i < 14 && Decimals.Text(one) == "1"
    ensures Spelled(one)[i].0 == DAILY_VALUE_DEFAULTS[i].0
    ensures Spells(Spelled(one)[i].1, DAILY_VALUE_DEFAULTS[i].1)
  {
    if i == 0 {
      assert Spells(PyTuple([]), PyList([]));
    } else if i == 12 {
      assert Spelled(one)[12].1 == PyDecimal(one) && DAILY_VALUE_DEFAULTS[12].1 == PyStr("1");
    } else {
      SameEntry(one, i);
      SpellsItself(DAILY_VALUE_DEFAULTS[i].1);
    }
  }

  lemma SpellsItself(v: PyValue)
    ensures Spells(v, v)
  {
  }

  /** The fields of a DailyValueNode that are None by default. */
  const NONE_FIELDS: set<string> := {"subject_kind", "subject_id", "binding_id", "field", "basis", "observations",
                                     "axis", "reduction", "arithmetic"}

  /** One of the fourteen defaults, in any value that normalizes to it; to Python
      False is 0 and True is 1. */
  predicate IsDailyDefault(key: string, v: PyValue) {
    || (key in NONE_FIELDS && v == PyNone)
    || (key == "operands" && (v == PyList([]) || v == PyTuple([])))
    || (key == "skip" && (v == PyInt(0) || v == PyBool(false)))
    || (key == "minimum_count" && (v == PyInt(1) || v == PyBool(true)))
    || (key == "missing_policy" && v == PyStr("require_all"))
    || (key == "minimum_fraction" && (v == PyStr("1") || (v.PyDecimal? && Decimals.Text(v.d) == "1")))
  }

  /** Where the table lists a key. */
  function Position(key: string): (i: nat)
    ensures i < 14
    ensures IsDailyKey(key) ==> DAILY_VALUE_DEFAULTS[i].0 == key
  {
    if key == "operands" then 0
    else if key == "subject_kind" then 1
    else if key == "subject_id" then 2
    else if key == "binding_id" then 3
    else if key == "field" then 4
    else if key == "basis" then 5
    else if key == "observations" then 6
    else if key == "skip" then 7
    else if key == "axis" then 8
    else if key == "reduction" then 9
    else if key == "missing_policy" then 10
    else if key == "minimum_count" then 11
    else if key == "minimum_fraction" then 12
    else 13
  }

  predicate IsDailyKey(key: string) {
    key in NONE_FIELDS + {"operands", "skip", "missing_policy", "minimum_count", "minimum_fraction"}
  }

  lemma DailyDefaultListed(key: string, v: PyValue)
    requires IsDailyDefault(key, v)
    ensures SpellsDefault(DAILY_VALUE_DEFAULTS, key, v)
  {
    DailyDefaultAt(Position(key), key, v);
  }

  lemma DailyDefaultAt(i: nat, key: string, v: PyValue)
    requires i < 14 && DAILY_VALUE_DEFAULTS[i].0 == key
    ensures IsDailyDefault(key, v) <==> Spells(v, DAILY_VALUE_DEFAULTS[i].1)
  {
    if v.PyDecimal? {
      TextStart(v.d);
      assert "require_all"[0] == 'r';
    }
  }

  /** An entry is dropped from a dictionary if and only if the dictionary is a literal
      with operands and the entry is one of the fourteen defaults. */
  lemma DroppedIff(m: map<string, PyValue>, key: string)
    requires key in m
    ensures key !in Normalized(DAILY_VALUE_DEFAULTS, PyDict(m)).fields
       <==> "kind" in m && m["kind"] == PyStr("literal") && "operands" in m && IsDailyDefault(key, m[key])
  {
    DailyValueTable();
    SurvivingKeys(DAILY_VALUE_DEFAULTS, m, key);
    if IsDailyDefault(key, m[key]) {
      DailyDefaultListed(key, m[key]);
    }
    if SpellsDefault(DAILY_VALUE_DEFAULTS, key, m[key]) {
      var i :| 0 <= i < |DAILY_VALUE_DEFAULTS| && DAILY_VALUE_DEFAULTS[i].0 == key
             && Spells(m[key], DAILY_VALUE_DEFAULTS[i].1);
      DailyDefaultAt(i, key, m[key]);
    }
  }

  lemma SpelledFields(table: Table, spelled: Table, key: string)
    requires SpellsTable(table, spelled)
    ensures key in AsFields(spelled) <==> TableKey(table, key)
    ensures key in AsFields(spelled) ==> SpellsDefault(table, key, AsFields(spelled)[key])
  {
    AsFieldsEntry(spelled, key);
    if TableKey(table, key) {
      var i :| 0 <= i < |table| && table[i].0 == key;
      assert spelled[i].0 == key;
    }
    if key in AsFields(spelled) {
      var i :| 0 <= i < |spelled| && spelled[i] == (key, AsFields(spelled)[key]);
      assert table[i].0 == key && Spells(spelled[i].1, table[i].1);
    }
  }

  lemma {:induction false} ExpandsItself(table: Table, v: PyValue)
    ensures Expands(table, v, v)
  {
    match v
    case PyDict(m) =>
      forall k | k in m ensures Expands(table, m[k], m[k]) { ExpandsItself(table, m[k]); }
    case PyList(items) =>
      forall i | 0 <= i < |items| ensures Expands(table, items[i], items[i]) { ExpandsItself(table, items[i]); }
    case PyTuple(items) =>
      forall i | 0 <= i < |items| ensures Expands(table, items[i], items[i]) { ExpandsItself(table, items[i]); }
    case _ =>
  }

  lemma SpellingExpands(table: Table, spelled: Table, m: map<string, PyValue>)
    requires SpellsTable(table, spelled) && TableKey(table, "operands") && IsCompactLiteral(table, m)
    ensures Expands(table, PyDict(m), PyDict(m + AsFields(spelled)))
  {
    var b := m + AsFields(spelled);
    forall k ensures k in AsFields(spelled) ==> k !in m && SpellsDefault(table, k, AsFields(spelled)[k]) {
      SpelledFields(table, spelled, k);
    }
    forall k | k in m ensures Expands(table, m[k], b[k]) {
      ExpandsItself(table, m[k]);
    }
    SpelledFields(table, spelled, "operands");
  }

  /** A compact literal read through DailyValueNode is an expansion of it, with all
      fourteen defaults spelled as they are dumped, and keeps its normal form. */
  lemma DailyValueNodeExpands(m: map<string, PyValue>, one: Decimal)
    requires Decimals.Text(one) == "1" && IsCompactLiteral(DAILY_VALUE_DEFAULTS, m)
    ensures
      var b := PyDict(m + AsFields(Spelled(one)));
      && Expands(DAILY_VALUE_DEFAULTS, PyDict(m), b)
      && Normalized(DAILY_VALUE_DEFAULTS, b) == Normalized(DAILY_VALUE_DEFAULTS, PyDict(m))
  {
    DailyValueTable();
    SpelledDefaults(one);
    SpellingExpands(DAILY_VALUE_DEFAULTS, Spelled(one), m);
    ExpansionInvisible(DAILY_VALUE_DEFAULTS, PyDict(m), PyDict(m + AsFields(Spelled(one))));
  }
}
