/** The dictionary that a V1 payload is, key by key. */
module V1Dictionary {
  import opened Options
  import opened KeyedImages
  import opened Normalization
  import opened V1Payload
  import opened V1Text

  /** m pairs exactly these keys with these values. */
  ghost predicate Pairs(v: PyValue, keys: seq<string>, values: seq<PyValue>)
    requires |keys| == |values|
  {
    && v.PyDict?
    && (forall k :: k in v.fields <==> k in keys)
    && (forall i | 0 <= i < |keys| && keys[i] in v.fields :: v.fields[keys[i]] == values[i])
  }

  lemma DictPairs(keys: seq<string>, values: seq<PyValue>)
    requires |keys| == |values| && DistinctStrings(keys)
    ensures Pairs(PyDict(Dict(keys, values)), keys, values)
  {
    forall i | 0 <= i < |keys| ensures keys[i] in Dict(keys, values) && Dict(keys, values)[keys[i]] == values[i] {
      DictAt(keys, values, i);
    }
    forall k ensures k in Dict(keys, values) ==> k in keys {
      DictKeys(keys, values, k);
    }
  }

  /** The five entries of the payload. */
  lemma TopEntries(p: Payload, definitions: PyValue, graph: PyValue)
    requires definitions == DefinitionsValue(p) && graph == GraphValue(p)
    ensures Pairs(PayloadValue(p), ["api_version", "random_seed", "definitions", "graph", "entrypoints"],
                  [PyStr("ruletrade.dev/strategy/v1"), PyInt(p.seed), definitions, graph,
                   PyList(Map(EntrypointValue, p.entrypoints))])
  {
    FixedKeysDistinct();
    DictPairs(PAYLOAD_KEYS, TopValues(p));
  }

  lemma DefinitionEntries(p: Payload)
    ensures Pairs(DefinitionsValue(p), ["asset_sets", "groups", "universes", "parameters", "state"],
                  [PyList(Map(ItemValue, p.assetSets)), PyList(Map(ItemValue, p.groups)),
                   PyList(Map(ItemValue, p.universes)), PyList(Map(ItemValue, p.parameters)),
                   PyList(Map(ItemValue, p.state))])
  {
    FixedKeysDistinct();
    DictPairs(DEFINITION_KEYS, [PyList(Map(ItemValue, p.assetSets)), PyList(Map(ItemValue, p.groups)),
                                PyList(Map(ItemValue, p.universes)), PyList(Map(ItemValue, p.parameters)),
                                PyList(Map(ItemValue, p.state))]);
  }

  lemma GraphEntries(p: Payload)
    ensures Pairs(GraphValue(p), ["components", "connections"],
                  [PyList(Map(ComponentValue, p.components)), PyList(Map(ConnectionValue, p.connections))])
  {
    FixedKeysDistinct();
    DictPairs(GRAPH_KEYS, [PyList(Map(ComponentValue, p.components)), PyList(Map(ConnectionValue, p.connections))]);
  }

  /** An item is its fields and its id. */
  lemma ItemEntries(x: Item)
    requires ItemOk(x)
    ensures ItemValue(x).PyDict? && ItemValue(x).fields.Keys == x.rest.fields.Keys + {"id"}
    ensures ItemValue(x).fields["id"] == PyStr(x.id)
    ensures forall k | k in x.rest.fields :: ItemValue(x).fields[k] == x.rest.fields[k]
  {
  }

  /** A connection joins the port of a source to the port of a target. */
  lemma ConnectionEntries(c: Connection)
    ensures Pairs(ConnectionValue(c), ["source", "target"],
                  [PortValue(c.sourceId, c.sourcePort), PortValue(c.targetId, c.targetPort)])
    ensures Pairs(PortValue(c.sourceId, c.sourcePort), ["component_id", "port"],
                  [PyStr(c.sourceId), PyStr(c.sourcePort)])
    ensures Pairs(PortValue(c.targetId, c.targetPort), ["component_id", "port"],
                  [PyStr(c.targetId), PyStr(c.targetPort)])
  {
    FixedKeysDistinct();
    DictPairs(PORT_KEYS, [PyStr(c.sourceId), PyStr(c.sourcePort)]);
    DictPairs(PORT_KEYS, [PyStr(c.targetId), PyStr(c.targetPort)]);
    DictPairs(CONNECTION_KEYS, [PortValue(c.sourceId, c.sourcePort), PortValue(c.targetId, c.targetPort)]);
  }

  lemma EntrypointEntries(e: Entrypoint)
    ensures Pairs(EntrypointValue(e), ["event_component_id", "target_component_id"],
                  [PyStr(e.eventId), PyStr(e.targetId)])
  {
    FixedKeysDistinct();
    DictPairs(ENTRYPOINT_KEYS, [PyStr(e.eventId), PyStr(e.targetId)]);
  }

  /** A component has five entries, a value expression if there is one, and its else
      actions if there are any. */
  lemma ComponentEntries(c: ComponentPayload)
    requires c.ComponentPayload?
    ensures
      var condition := if c.condition == None then PyNone else c.condition.value;
      var keys := ["id", "primitive", "config", "condition", "actions"]
                  + (if c.valueExpression == None then [] else ["value_expression"])
                  + (if c.elseActions == [] then [] else ["else_actions"]);
      var values := [PyStr(c.id), PyStr(c.primitive), c.config, condition, PyList(c.actions)]
                    + (if c.valueExpression == None then [] else [c.valueExpression.value])
                    + (if c.elseActions == [] then [] else [PyList(c.elseActions)]);
      Pairs(ComponentValue(c), keys, values)
  {
    ComponentKeysDistinct();
    var required := Dict(COMPONENT_KEYS, RequiredValues(c));
    DictPairs(COMPONENT_KEYS, RequiredValues(c));
    var keys := COMPONENT_KEYS + if c.valueExpression == None then [] else [VALUE_EXPRESSION];
    var values := RequiredValues(c) + if c.valueExpression == None then [] else [c.valueExpression.value];
    var more := if c.valueExpression.None? then required else required[VALUE_EXPRESSION := c.valueExpression.value];
    if c.valueExpression.Some? {
      PairsMore(required, COMPONENT_KEYS, RequiredValues(c), VALUE_EXPRESSION, c.valueExpression.value);
    } else {
      assert keys == COMPONENT_KEYS && values == RequiredValues(c);
    }
    if c.elseActions != [] {
      PairsMore(more, keys, values, ELSE_ACTIONS, PyList(c.elseActions));
    } else {
      assert keys + [] == keys && values + [] == values;
    }
  }

  lemma PairsMore(m: map<string, PyValue>, keys: seq<string>, values: seq<PyValue>, key: string, value: PyValue)
    requires |keys| == |values| && Pairs(PyDict(m), keys, values) && key !in keys
    ensures Pairs(PyDict(m[key := value]), keys + [key], values + [value])
  {
    var more := m[key := value];
    forall k ensures k in more <==> k in keys + [key] {
    }
    forall i | 0 <= i < |keys| + 1 ensures more[(keys + [key])[i]] == (values + [value])[i] {
    }
  }
}
