/** The canonical text of a V1 strategy: its payload as a dictionary, and what the
    printed dictionary identifies. */
module V1Text {
  import opened Options
  import Sorting
  import opened JsonText
  import opened CanonicalJson
  import opened KeyedImages
  import opened Normalization
  import opened SemanticIdentity
  import opened V1Payload

  // ----- dictionaries with fixed keys -----

  predicate DistinctStrings(keys: seq<string>) {
    forall i, j | 0 <= i < j < |keys| :: keys[i] != keys[j]
  }

  /** The dictionary that pairs each key with its value. */
  function Dict(keys: seq<string>, values: seq<PyValue>): map<string, PyValue>
    requires |values| == |keys|
  {
    if keys == [] then map[]
    else
      var n := |keys| - 1;
      Dict(keys[..n], values[..n])[keys[n] := values[n]]
  }

  lemma {:induction false} DictAt(keys: seq<string>, values: seq<PyValue>, i: nat)
    requires |values| == |keys| && DistinctStrings(keys) && i < |keys|
    ensures keys[i] in Dict(keys, values) && Dict(keys, values)[keys[i]] == values[i]
  {
    var n := |keys| - 1;
    if i < n {
      DictAt(keys[..n], values[..n], i);
    }
  }

  lemma {:induction false} DictKeys(keys: seq<string>, values: seq<PyValue>, k: string)
    requires |values| == |keys|
    ensures k in Dict(keys, values) ==> k in keys && Dict(keys, values)[k] in values
  {
    if keys != [] {
      var n := |keys| - 1;
      DictKeys(keys[..n], values[..n], k);
    }
  }

  lemma DictInjective(keys: seq<string>, v: seq<PyValue>, w: seq<PyValue>)
    requires |v| == |w| == |keys| && DistinctStrings(keys) && Dict(keys, v) == Dict(keys, w)
    ensures v == w
  {
    forall i | 0 <= i < |keys| ensures v[i] == w[i] {
      DictAt(keys, v, i);
      DictAt(keys, w, i);
    }
  }

  lemma DictPlain(keys: seq<string>, values: seq<PyValue>)
    requires |values| == |keys| && forall i | 0 <= i < |values| :: Plain(values[i])
    ensures Plain(PyDict(Dict(keys, values)))
  {
    forall k | k in Dict(keys, values) ensures Plain(Dict(keys, values)[k]) {
      DictKeys(keys, values, k);
    }
  }

  // ----- the payload as a dictionary -----

  const PAYLOAD_KEYS: seq<string> := ["api_version", "random_seed", "definitions", "graph", "entrypoints"]
  const DEFINITION_KEYS: seq<string> := ["asset_sets", "groups", "universes", "parameters", "state"]
  const GRAPH_KEYS: seq<string> := ["components", "connections"]
  const COMPONENT_KEYS: seq<string> := ["id", "primitive", "config", "condition", "actions"]
  const VALUE_EXPRESSION: string := "value_expression"
  const ELSE_ACTIONS: string := "else_actions"
  const CONNECTION_KEYS: seq<string> := ["source", "target"]
  const PORT_KEYS: seq<string> := ["component_id", "port"]
  const ENTRYPOINT_KEYS: seq<string> := ["event_component_id", "target_component_id"]

  function ItemValue(x: Item): PyValue {
    if x.rest.PyDict? then PyDict(x.rest.fields["id" := PyStr(x.id)]) else x.rest
  }

  function OptionValue(v: Option<PyValue>): PyValue {
    if v.None? then PyNone else v.value
  }

  /** The value expression and the else actions are left out when there are none. */
  function ComponentValue(c: ComponentPayload): PyValue {
    match c
    case Raises(id) => PyStr(id)
    case ComponentPayload(id, primitive, config, condition, valueExpression, actions, elseActions) =>
      var required := Dict(COMPONENT_KEYS,
                           [PyStr(id), PyStr(primitive), config, OptionValue(condition), PyList(actions)]);
      var more := if valueExpression.None? then required else required[VALUE_EXPRESSION := valueExpression.value];
      PyDict(if elseActions == [] then more else more[ELSE_ACTIONS := PyList(elseActions)])
  }

  function PortValue(id: string, port: string): PyValue {
    PyDict(Dict(PORT_KEYS, [PyStr(id), PyStr(port)]))
  }

  function ConnectionValue(c: Connection): PyValue {
    PyDict(Dict(CONNECTION_KEYS, [PortValue(c.sourceId, c.sourcePort), PortValue(c.targetId, c.targetPort)]))
  }

  function EntrypointValue(e: Entrypoint): PyValue {
    PyDict(Dict(ENTRYPOINT_KEYS, [PyStr(e.eventId), PyStr(e.targetId)]))
  }

  function DefinitionsValue(p: Payload): PyValue {
    PyDict(Dict(DEFINITION_KEYS, [PyList(Map(ItemValue, p.assetSets)), PyList(Map(ItemValue, p.groups)),
                                  PyList(Map(ItemValue, p.universes)), PyList(Map(ItemValue, p.parameters)),
                                  PyList(Map(ItemValue, p.state))]))
  }

  function GraphValue(p: Payload): PyValue {
    PyDict(Dict(GRAPH_KEYS, [PyList(Map(ComponentValue, p.components)), PyList(Map(ConnectionValue, p.connections))]))
  }

  function PayloadValue(p: Payload): PyValue {
    PyDict(Dict(PAYLOAD_KEYS, [PyStr("ruletrade.dev/strategy/v1"), PyInt(p.seed), DefinitionsValue(p), GraphValue(p),
                               PyList(Map(EntrypointValue, p.entrypoints))]))
  }

  // ----- key lists -----

  lemma FixedKeysDistinct()
    ensures DistinctStrings(PAYLOAD_KEYS) && DistinctStrings(DEFINITION_KEYS) && DistinctStrings(GRAPH_KEYS)
    ensures DistinctStrings(PORT_KEYS) && DistinctStrings(CONNECTION_KEYS) && DistinctStrings(ENTRYPOINT_KEYS)
  {
    FirstCharsDiffer(PAYLOAD_KEYS, ['a', 'r', 'd', 'g', 'e']);
    FirstCharsDiffer(DEFINITION_KEYS, ['a', 'g', 'u', 'p', 's']);
    FirstCharsDiffer(PORT_KEYS, ['c', 'p']);
    FirstCharsDiffer(CONNECTION_KEYS, ['s', 't']);
    FirstCharsDiffer(ENTRYPOINT_KEYS, ['e', 't']);
    assert |GRAPH_KEYS[0]| == 10 && |GRAPH_KEYS[1]| == 11;
  }

  lemma FirstCharsDiffer(keys: seq<string>, chars: seq<char>)
    requires |chars| == |keys| && (forall i | 0 <= i < |keys| :: keys[i] != "" && keys[i][0] == chars[i])
    requires forall i, j | 0 <= i < j < |chars| :: chars[i] != chars[j]
    ensures DistinctStrings(keys)
  {
    forall i, j | 0 <= i < j < |keys| ensures keys[i] != keys[j] {
      assert keys[i][0] == chars[i] && keys[j][0] == chars[j];
    }
  }

  lemma ComponentKeysDistinct()
    ensures DistinctStrings(COMPONENT_KEYS) && VALUE_EXPRESSION !in COMPONENT_KEYS && ELSE_ACTIONS !in COMPONENT_KEYS
    ensures VALUE_EXPRESSION != ELSE_ACTIONS
  {
    var lengths := [2, 9, 6, 9, 7];
    assert forall i | 0 <= i < 5 :: |COMPONENT_KEYS[i]| == lengths[i];
    assert COMPONENT_KEYS[1][0] == 'p' && COMPONENT_KEYS[3][0] == 'c';
    assert |VALUE_EXPRESSION| == 16 && |ELSE_ACTIONS| == 12;
  }

  // ----- the dictionary determines the payload -----

  /** The fields of an item other than its id are a dictionary without an id. */
  predicate ItemOk(x: Item) {
    x.rest.PyDict? && "id" !in x.rest.fields
  }

  predicate ItemsOk(xs: seq<Item>) {
    forall i | 0 <= i < |xs| :: ItemOk(xs[i])
  }

  predicate ComponentOk(c: ComponentPayload) {
    c.ComponentPayload? && c.condition != Some(PyNone)
  }

  predicate ComponentsOk(cs: seq<ComponentPayload>) {
    forall i | 0 <= i < |cs| :: ComponentOk(cs[i])
  }

  predicate PayloadOk(p: Payload) {
    && ItemsOk(p.assetSets) && ItemsOk(p.groups) && ItemsOk(p.universes) && ItemsOk(p.parameters) && ItemsOk(p.state)
    && ComponentsOk(p.components)
  }

  lemma ItemValueInjective(x: Item, y: Item)
    requires ItemOk(x) && ItemOk(y) && ItemValue(x) == ItemValue(y)
    ensures x == y
  {
    var m, n := x.rest.fields, y.rest.fields;
    assert m["id" := PyStr(x.id)]["id"] == n["id" := PyStr(y.id)]["id"];
    assert m == m["id" := PyStr(x.id)] - {"id"};
    assert n == n["id" := PyStr(y.id)] - {"id"};
  }

  lemma ItemsInjective(xs: seq<Item>, ys: seq<Item>)
    requires ItemsOk(xs) && ItemsOk(ys) && Map(ItemValue, xs) == Map(ItemValue, ys)
    ensures xs == ys
  {
    forall i | 0 <= i < |xs| ensures xs[i] == ys[i] {
      assert Map(ItemValue, xs)[i] == Map(ItemValue, ys)[i];
      ItemValueInjective(xs[i], ys[i]);
    }
  }

  /** What a component's dictionary always has. */
  function RequiredValues(c: ComponentPayload): seq<PyValue>
    requires c.ComponentPayload?
  {
    [PyStr(c.id), PyStr(c.primitive), c.config, OptionValue(c.condition), PyList(c.actions)]
  }

  lemma ComponentFields(c: ComponentPayload)
    requires c.ComponentPayload?
    ensures ComponentValue(c).PyDict?
    ensures
      var m := ComponentValue(c).fields;
      && (VALUE_EXPRESSION in m <==> c.valueExpression.Some?)
      && (c.valueExpression.Some? ==> m[VALUE_EXPRESSION] == c.valueExpression.value)
      && (ELSE_ACTIONS in m <==> c.elseActions != [])
      && (c.elseActions != [] ==> m[ELSE_ACTIONS] == PyList(c.elseActions))
      && m - {VALUE_EXPRESSION, ELSE_ACTIONS} == Dict(COMPONENT_KEYS, RequiredValues(c))
  {
    ComponentKeysDistinct();
    DictKeys(COMPONENT_KEYS, RequiredValues(c), VALUE_EXPRESSION);
    DictKeys(COMPONENT_KEYS, RequiredValues(c), ELSE_ACTIONS);
  }

  lemma ComponentValueInjective(c: ComponentPayload, d: ComponentPayload)
    requires ComponentOk(c) && ComponentOk(d) && ComponentValue(c) == ComponentValue(d)
    ensures c == d
  {
    ComponentFields(c);
    ComponentFields(d);
    ComponentKeysDistinct();
    DictInjective(COMPONENT_KEYS, RequiredValues(c), RequiredValues(d));
    assert RequiredValues(c)[0] == RequiredValues(d)[0] && RequiredValues(c)[1] == RequiredValues(d)[1];
    assert RequiredValues(c)[2] == RequiredValues(d)[2] && RequiredValues(c)[3] == RequiredValues(d)[3];
    assert RequiredValues(c)[4] == RequiredValues(d)[4];
  }

  lemma ComponentsInjective(xs: seq<ComponentPayload>, ys: seq<ComponentPayload>)
    requires ComponentsOk(xs) && ComponentsOk(ys) && Map(ComponentValue, xs) == Map(ComponentValue, ys)
    ensures xs == ys
  {
    forall i | 0 <= i < |xs| ensures xs[i] == ys[i] {
      assert Map(ComponentValue, xs)[i] == Map(ComponentValue, ys)[i];
      ComponentValueInjective(xs[i], ys[i]);
    }
  }

  lemma PortInjective(a: string, p: string, b: string, q: string)
    requires PortValue(a, p) == PortValue(b, q)
    ensures a == b && p == q
  {
    FixedKeysDistinct();
    var v, w := [PyStr(a), PyStr(p)], [PyStr(b), PyStr(q)];
    DictInjective(PORT_KEYS, v, w);
    assert v[0] == w[0] && v[1] == w[1];
  }

  lemma ConnectionsInjective(xs: seq<Connection>, ys: seq<Connection>)
    requires Map(ConnectionValue, xs) == Map(ConnectionValue, ys)
    ensures xs == ys
  {
    forall i | 0 <= i < |xs| ensures xs[i] == ys[i] {
      assert Map(ConnectionValue, xs)[i] == Map(ConnectionValue, ys)[i];
      var c, d := xs[i], ys[i];
      FixedKeysDistinct();
      var v := [PortValue(c.sourceId, c.sourcePort), PortValue(c.targetId, c.targetPort)];
      var w := [PortValue(d.sourceId, d.sourcePort), PortValue(d.targetId, d.targetPort)];
      DictInjective(CONNECTION_KEYS, v, w);
      assert v[0] == w[0] && v[1] == w[1];
      PortInjective(c.sourceId, c.sourcePort, d.sourceId, d.sourcePort);
      PortInjective(c.targetId, c.targetPort, d.targetId, d.targetPort);
    }
  }

  lemma EntrypointsInjective(xs: seq<Entrypoint>, ys: seq<Entrypoint>)
    requires Map(EntrypointValue, xs) == Map(EntrypointValue, ys)
    ensures xs == ys
  {
    forall i | 0 <= i < |xs| ensures xs[i] == ys[i] {
      assert Map(EntrypointValue, xs)[i] == Map(EntrypointValue, ys)[i];
      FixedKeysDistinct();
      var v, w := [PyStr(xs[i].eventId), PyStr(xs[i].targetId)], [PyStr(ys[i].eventId), PyStr(ys[i].targetId)];
      DictInjective(ENTRYPOINT_KEYS, v, w);
      assert v[0] == w[0] && v[1] == w[1];
    }
  }

  lemma DefinitionsInjective(p: Payload, q: Payload)
    requires PayloadOk(p) && PayloadOk(q) && DefinitionsValue(p) == DefinitionsValue(q)
    ensures p.assetSets == q.assetSets && p.groups == q.groups && p.universes == q.universes
    ensures p.parameters == q.parameters && p.state == q.state
  {
    FixedKeysDistinct();
    var v := [PyList(Map(ItemValue, p.assetSets)), PyList(Map(ItemValue, p.groups)),
              PyList(Map(ItemValue, p.universes)),
              PyList(Map(ItemValue, p.parameters)), PyList(Map(ItemValue, p.state))];
    var w := [PyList(Map(ItemValue, q.assetSets)), PyList(Map(ItemValue, q.groups)),
              PyList(Map(ItemValue, q.universes)),
              PyList(Map(ItemValue, q.parameters)), PyList(Map(ItemValue, q.state))];
    DictInjective(DEFINITION_KEYS, v, w);
    assert v[0] == w[0] && v[1] == w[1] && v[2] == w[2] && v[3] == w[3] && v[4] == w[4];
    ItemsInjective(p.assetSets, q.assetSets);
    ItemsInjective(p.groups, q.groups);
    ItemsInjective(p.universes, q.universes);
    ItemsInjective(p.parameters, q.parameters);
    ItemsInjective(p.state, q.state);
  }

  lemma GraphInjective(p: Payload, q: Payload)
    requires PayloadOk(p) && PayloadOk(q) && GraphValue(p) == GraphValue(q)
    ensures p.components == q.components && p.connections == q.connections
  {
    FixedKeysDistinct();
    var v := [PyList(Map(ComponentValue, p.components)), PyList(Map(ConnectionValue, p.connections))];
    var w := [PyList(Map(ComponentValue, q.components)), PyList(Map(ConnectionValue, q.connections))];
    DictInjective(GRAPH_KEYS, v, w);
    assert v[0] == w[0] && v[1] == w[1];
    ComponentsInjective(p.components, q.components);
    ConnectionsInjective(p.connections, q.connections);
  }

  function TopValues(p: Payload): seq<PyValue> {
    [PyStr("ruletrade.dev/strategy/v1"), PyInt(p.seed), DefinitionsValue(p), GraphValue(p),
     PyList(Map(EntrypointValue, p.entrypoints))]
  }

  lemma PayloadValueInjective(p: Payload, q: Payload)
    requires PayloadOk(p) && PayloadOk(q)
    ensures PayloadValue(p) == PayloadValue(q) <==> p == q
  {
    if PayloadValue(p) == PayloadValue(q) {
      FixedKeysDistinct();
      var v, w := TopValues(p), TopValues(q);
      DictInjective(PAYLOAD_KEYS, v, w);
      assert v[1] == w[1] && v[2] == w[2] && v[3] == w[3] && v[4] == w[4];
      DefinitionsInjective(p, q);
      GraphInjective(p, q);
      EntrypointsInjective(p.entrypoints, q.entrypoints);
    }
  }

  // ----- the payload of a document -----

  /** What the model classes guarantee of a document: the fields of its items are
      dictionaries, and a condition is one too. */
  predicate DocumentOk(doc: Document) {
    && ItemsOk(doc.assetSets) && ItemsOk(doc.groups) && ItemsOk(doc.universes)
    && ItemsOk(doc.parameters) && ItemsOk(doc.state)
    && forall i | 0 <= i < |doc.components| ::
      doc.components[i].condition.Some? ==> doc.components[i].condition.value.PyDict?
  }

  lemma ItemsNormalOk(t: Table, xs: seq<Item>)
    requires ItemsOk(xs)
    ensures ItemsOk(Map(NormalItem(t), xs))
  {
    forall i | 0 <= i < |xs| ensures ItemOk(NormalItem(t)(xs[i])) {
      var m := xs[i].rest.fields;
      assert Normalized(t, xs[i].rest) == PyDict(DropDefaults(t, NormalizedFields(t, m)));
    }
  }

  lemma SortedItemsOk(xs: seq<Item>)
    requires ItemsOk(xs)
    ensures ItemsOk(SortedItems(xs))
  {
    Sorting.SortMembers(xs, IdOfItem, Sorting.StringLess);
    forall i | 0 <= i < |SortedItems(xs)| ensures ItemOk(SortedItems(xs)[i]) {
      assert SortedItems(xs)[i] in xs;
    }
  }

  lemma AstOfDict(b: Builtins, m: map<string, PyValue>)
    ensures Ast(b, PyDict(m)).Some? ==> Ast(b, PyDict(m)).value.PyDict?
  {
  }

  lemma ImageOk(b: Builtins, t: Table, c: Component)
    requires Rewritten(b, c).Some? && (c.condition.Some? ==> c.condition.value.PyDict?)
    ensures ComponentOk(Image(b, t)(c))
  {
    if c.condition.Some? {
      AstOfDict(b, c.condition.value.fields);
    }
  }

  lemma ImagesOk(b: Builtins, t: Table, cs: seq<Component>)
    requires Succeeds(b, cs)
    requires forall i | 0 <= i < |cs| :: cs[i].condition.Some? ==> cs[i].condition.value.PyDict?
    ensures ComponentsOk(Map(Image(b, t), SortedComponents(cs)))
  {
    var sorted := SortedComponents(cs);
    SortedSucceeds(b, cs);
    Sorting.SortMembers(cs, IdOfComponent, Sorting.StringLess);
    forall i | 0 <= i < |sorted| ensures ComponentOk(Image(b, t)(sorted[i])) {
      assert sorted[i] in cs;
      ImageOk(b, t, sorted[i]);
    }
  }

  lemma PayloadOfOk(b: Builtins, t: Table, doc: Document)
    requires DocumentOk(doc) && Succeeds(b, doc.components)
    ensures PayloadOk(PayloadOf(b, t, doc).value)
  {
    SortedItemsOk(doc.assetSets);
    SortedItemsOk(doc.parameters);
    SortedItemsOk(doc.state);
    ItemsNormalOk(t, SortedItems(doc.assetSets));
    ItemsNormalOk(t, doc.groups);
    ItemsNormalOk(t, doc.universes);
    ItemsNormalOk(t, SortedItems(doc.parameters));
    ItemsNormalOk(t, SortedItems(doc.state));
    ImagesOk(b, t, doc.components);
  }

  /** The canonical text of a V1 strategy identifies the document: its meaning, and
      not its metadata nor the order of its sorted collections. */
  lemma V1TextIdentity(b: Builtins, t: Table, x: Document, y: Document, jx: Json, jy: Json)
    requires PlainDefaults(t) && DocumentOk(x) && DocumentOk(y)
    requires Succeeds(b, x.components) && Succeeds(b, y.components)
    requires Lays(jx, PayloadValue(PayloadOf(b, t, x).value)) && Lays(jy, PayloadValue(PayloadOf(b, t, y).value))
    ensures Dumps(jx) == Dumps(jy) <==> SameDocument(b, t, x, y)
  {
    var p, q := PayloadOf(b, t, x).value, PayloadOf(b, t, y).value;
    DumpsCharacterizes(jx, jy);
    ToValueInjective(PayloadValue(p), PayloadValue(q));
    PayloadOfOk(b, t, x);
    PayloadOfOk(b, t, y);
    PayloadValueInjective(p, q);
    PayloadIdentity(b, t, x, y);
  }

  // ----- the dictionary can be printed -----

  lemma ItemsPlain(t: Table, xs: seq<Item>)
    ensures Plain(PyList(Map(ItemValue, Map(NormalItem(t), xs))))
  {
    forall i | 0 <= i < |xs| ensures Plain(ItemValue(NormalItem(t)(xs[i]))) {
      NormalizedPlain(t, xs[i].rest);
    }
  }

  lemma ValuesPlain(t: Table, vs: seq<PyValue>)
    ensures Plain(PyList(Map(Normal(t), vs)))
  {
    forall i | 0 <= i < |vs| ensures Plain(Normal(t)(vs[i])) {
      NormalizedPlain(t, vs[i]);
    }
  }

  lemma OptionPlain(t: Table, v: Option<PyValue>)
    ensures Plain(OptionValue(NormalOption(t, v)))
  {
    if v.Some? {
      NormalizedPlain(t, v.value);
    }
  }

  lemma ComponentPlain(t: Table, c: Component)
    ensures Plain(ComponentValue(NormalComponent(t, c)))
  {
    var n := NormalComponent(t, c);
    NormalizedPlain(t, PyDict(c.config));
    OptionPlain(t, c.condition);
    OptionPlain(t, c.valueExpression);
    ValuesPlain(t, c.actions);
    ValuesPlain(t, c.elseActions);
    DictPlain(COMPONENT_KEYS, RequiredValues(n));
    ComponentFields(n);
    var m := ComponentValue(n).fields;
    forall k | k in m ensures Plain(m[k]) {
      if k != VALUE_EXPRESSION && k != ELSE_ACTIONS {
        assert (m - {VALUE_EXPRESSION, ELSE_ACTIONS})[k] == m[k];
      }
    }
  }

  lemma ComponentsPlain(b: Builtins, t: Table, cs: seq<Component>)
    ensures Plain(PyList(Map(ComponentValue, Map(Image(b, t), cs))))
  {
    forall i | 0 <= i < |cs| ensures Plain(ComponentValue(Image(b, t)(cs[i]))) {
      if Rewritten(b, cs[i]).Some? {
        ComponentPlain(t, Rewritten(b, cs[i]).value);
      }
    }
  }

  lemma LinksPlain(cs: seq<Connection>, es: seq<Entrypoint>)
    ensures Plain(PyList(Map(ConnectionValue, cs))) && Plain(PyList(Map(EntrypointValue, es)))
  {
    forall i | 0 <= i < |cs| ensures Plain(ConnectionValue(cs[i])) {
      var c := cs[i];
      DictPlain(PORT_KEYS, [PyStr(c.sourceId), PyStr(c.sourcePort)]);
      DictPlain(PORT_KEYS, [PyStr(c.targetId), PyStr(c.targetPort)]);
      DictPlain(CONNECTION_KEYS, [PortValue(c.sourceId, c.sourcePort), PortValue(c.targetId, c.targetPort)]);
    }
    forall i | 0 <= i < |es| ensures Plain(EntrypointValue(es[i])) {
      DictPlain(ENTRYPOINT_KEYS, [PyStr(es[i].eventId), PyStr(es[i].targetId)]);
    }
  }

  /** Every V1 document whose payload can be built has a canonical text. */
  lemma V1TextExists(b: Builtins, t: Table, doc: Document) returns (j: Json)
    requires Succeeds(b, doc.components)
    ensures Lays(j, PayloadValue(PayloadOf(b, t, doc).value))
  {
    var p := PayloadOf(b, t, doc).value;
    DefinitionsPlain(b, t, doc);
    GraphPlain(b, t, doc);
    LinksPlain(p.connections, p.entrypoints);
    TopPlain(p);
    j := LayoutExists(PayloadValue(p));
  }

  lemma TopPlain(p: Payload)
    requires Plain(DefinitionsValue(p)) && Plain(GraphValue(p)) && Plain(PyList(Map(EntrypointValue, p.entrypoints)))
    ensures Plain(PayloadValue(p))
  {
    DictPlain(PAYLOAD_KEYS, TopValues(p));
  }

  lemma GraphPlain(b: Builtins, t: Table, doc: Document)
    requires Succeeds(b, doc.components)
    ensures Plain(GraphValue(PayloadOf(b, t, doc).value))
  {
    var p := PayloadOf(b, t, doc).value;
    ComponentsPlain(b, t, SortedComponents(doc.components));
    LinksPlain(p.connections, p.entrypoints);
    DictPlain(GRAPH_KEYS, [PyList(Map(ComponentValue, p.components)), PyList(Map(ConnectionValue, p.connections))]);
  }

  lemma DefinitionsPlain(b: Builtins, t: Table, doc: Document)
    requires Succeeds(b, doc.components)
    ensures Plain(DefinitionsValue(PayloadOf(b, t, doc).value))
  {
    var p := PayloadOf(b, t, doc).value;
    ItemsPlain(t, SortedItems(doc.assetSets));
    ItemsPlain(t, doc.groups);
    ItemsPlain(t, doc.universes);
    ItemsPlain(t, SortedItems(doc.parameters));
    ItemsPlain(t, SortedItems(doc.state));
    FivePlain(PyList(Map(ItemValue, p.assetSets)), PyList(Map(ItemValue, p.groups)),
              PyList(Map(ItemValue, p.universes)),
              PyList(Map(ItemValue, p.parameters)), PyList(Map(ItemValue, p.state)));
  }

  lemma FivePlain(v: PyValue, w: PyValue, x: PyValue, y: PyValue, z: PyValue)
    requires Plain(v) && Plain(w) && Plain(x) && Plain(y) && Plain(z)
    ensures Plain(PyDict(Dict(DEFINITION_KEYS, [v, w, x, y, z])))
  {
    DictPlain(DEFINITION_KEYS, [v, w, x, y, z]);
  }
}
