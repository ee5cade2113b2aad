/** What the rewriting of a V1 strategy does to each part of it. */
module V1Shape {
  import opened Options
  import opened Sorting
  import opened KeyedImages
  import opened JsonShape
  import opened Normalization
  import opened V1Payload

  // ----- configurations -----

  /** The last field of the name is the one that a dictionary by name keeps. */
  ghost predicate LastNamed(fields: seq<Field>, name: string, field: Field) {
    exists i :: 0 <= i < |fields| && fields[i] == field && field.name == name
             && forall j | i < j < |fields| :: fields[j].name != name
  }

  ghost predicate HasField(fields: seq<Field>, name: string) {
    exists i :: 0 <= i < |fields| && fields[i].name == name
  }

  /** The last optional field of the name gives its default. */
  ghost predicate DefaultNamed(fields: seq<Field>, name: string, v: PyValue) {
    exists i :: 0 <= i < |fields| && fields[i].name == name && !fields[i].required && fields[i].default == v
             && forall j | i < j < |fields| :: fields[j].name != name || fields[j].required
  }

  lemma {:induction false} FieldNamedIff(fields: seq<Field>, name: string)
    ensures FieldNamed(fields, name).Some? <==> HasField(fields, name)
    ensures FieldNamed(fields, name).Some? ==> LastNamed(fields, name, FieldNamed(fields, name).value)
  {
    if fields != [] {
      var n := |fields| - 1;
      var init := fields[..n];
      if fields[n].name == name {
        assert LastNamed(fields, name, fields[n]);
      } else {
        FieldNamedIff(init, name);
        if HasField(fields, name) {
          var i :| 0 <= i < |fields| && fields[i].name == name;
          assert init[i].name == name;
        }
        if FieldNamed(init, name).Some? {
          var field := FieldNamed(init, name).value;
          var i :| 0 <= i < n && init[i] == field && field.name == name
                && forall j | i < j < n :: init[j].name != name;
          assert fields[i] == field;
          assert forall j | i < j < n :: fields[j] == init[j];
        }
      }
    }
  }

  lemma {:induction false} DefaultsIff(fields: seq<Field>, config: map<string, PyValue>, name: string)
    ensures name in Defaults(fields, config) ==>
              name !in config && DefaultNamed(fields, name, Defaults(fields, config)[name])
    ensures name !in config && (exists v :: DefaultNamed(fields, name, v)) ==> name in Defaults(fields, config)
  {
    if fields != [] {
      var n := |fields| - 1;
      var init, last := fields[..n], fields[n];
      DefaultsIff(init, config, name);
      if name == last.name && !last.required {
        assert DefaultNamed(fields, name, last.default);
      } else {
        DefaultInit(fields, name);
      }
    }
  }

  lemma DefaultInit(fields: seq<Field>, name: string)
    requires fields != [] && (fields[|fields| - 1].name != name || fields[|fields| - 1].required)
    ensures forall v :: DefaultNamed(fields, name, v) <==> DefaultNamed(fields[..|fields| - 1], name, v)
  {
    var n := |fields| - 1;
    var init := fields[..n];
    forall v | DefaultNamed(fields, name, v) ensures DefaultNamed(init, name, v) {
      var i :| 0 <= i < |fields| && fields[i].name == name && !fields[i].required && fields[i].default == v
            && forall j | i < j < |fields| :: fields[j].name != name || fields[j].required;
      assert init[i] == fields[i] && forall j | i < j < n :: init[j] == fields[j];
    }
    forall v | DefaultNamed(init, name, v) ensures DefaultNamed(fields, name, v) {
      var i :| 0 <= i < n && init[i].name == name && !init[i].required && init[i].default == v
            && forall j | i < j < n :: init[j].name != name || init[j].required;
      assert fields[i] == init[i] && forall j | i < j < n :: fields[j] == init[j];
    }
  }

  /** r is v as a field of this name holds it: retyped by the last field of the name
      when it matches that type, and untouched otherwise. */
  ghost predicate HeldAs(b: Builtins, fields: seq<Field>, name: string, v: PyValue, r: PyValue) {
    && (!HasField(fields, name) ==> r == v)
    && forall field | LastNamed(fields, name, field) ::
      if b.typed(v, field.valueType) == None then r == v else Some(r) == b.typed(v, field.valueType)
  }

  lemma LastNamedOnce(fields: seq<Field>, name: string, x: Field, y: Field)
    requires LastNamed(fields, name, x) && LastNamed(fields, name, y)
    ensures x == y
  {
    var i :| 0 <= i < |fields| && fields[i] == x && x.name == name
          && forall j | i < j < |fields| :: fields[j].name != name;
    var k :| 0 <= k < |fields| && fields[k] == y && y.name == name
          && forall j | k < j < |fields| :: fields[j].name != name;
    assert i == k;
  }

  lemma RegistryValueHeld(b: Builtins, fields: seq<Field>, name: string, v: PyValue)
    ensures HeldAs(b, fields, name, v, RegistryValue(b, v, FieldNamed(fields, name)))
  {
    FieldNamedIff(fields, name);
    forall field | LastNamed(fields, name, field) ensures FieldNamed(fields, name) == Some(field) {
      assert HasField(fields, name);
      LastNamedOnce(fields, name, field, FieldNamed(fields, name).value);
    }
  }

  /** The configuration of a known primitive holds what was configured and the
      defaults of the optional fields that were not, each as its field holds it. */
  lemma ConfigIff(b: Builtins, c: Component, p: Primitive, name: string)
    requires b.find(c.primitive) == Some(p)
    ensures
      var r := RewrittenConfig(b, c);
      && (name in r <==> name in c.config || exists v :: DefaultNamed(p.fields, name, v))
      && (name in c.config ==> HeldAs(b, p.fields, name, c.config[name], r[name]))
      && (name in r && name !in c.config ==>
            exists v :: DefaultNamed(p.fields, name, v) && HeldAs(b, p.fields, name, v, r[name]))
  {
    DefaultsIff(p.fields, c.config, name);
    var resolved := ResolveConfig(p, c.config);
    if name in resolved {
      RegistryValueHeld(b, p.fields, name, resolved[name]);
    }
  }

  lemma UnknownKeepsConfig(b: Builtins, c: Component)
    requires b.find(c.primitive) == None
    ensures RewrittenConfig(b, c) == c.config
  {
  }

  // ----- expressions -----

  /** Only lists and dictionaries are rebuilt; a list item by item. */
  lemma AstOfList(b: Builtins, v: PyValue)
    ensures !v.PyList? && !v.PyDict? ==> Ast(b, v) == Some(v)
    ensures v.PyList? ==>
              && (Ast(b, v) == None <==> exists i :: 0 <= i < |v.items| && Ast(b, v.items[i]) == None)
              && (Ast(b, v).Some? ==>
                    && Ast(b, v).value.PyList? && |Ast(b, v).value.items| == |v.items|
                    && forall i | 0 <= i < |v.items| :: Ast(b, v.items[i]) == Some(Ast(b, v).value.items[i]))
  {
  }

  predicate IsKind(m: map<string, PyValue>, kind: string) {
    "kind" in m && m["kind"] == PyStr(kind)
  }

  /** The node calls an indicator that the registry knows as one. */
  predicate CallsIndicator(b: Builtins, m: map<string, PyValue>, p: Primitive) {
    && IsKind(m, "indicator") && "indicator_id" in m && m["indicator_id"].PyStr?
    && b.find(m["indicator_id"].s) == Some(p) && p.isIndicator
  }

  ghost predicate KnownIndicator(b: Builtins, m: map<string, PyValue>) {
    exists p :: CallsIndicator(b, m, p)
  }

  /** A text stands for itself, before the rewriting and after it. */
  lemma TextsStay(b: Builtins, v: PyValue, s: string)
    ensures Ast(b, v) == Some(PyStr(s)) <==> v == PyStr(s)
  {
  }

  ghost function Children(b: Builtins, m: map<string, PyValue>): map<string, PyValue>
    requires forall k | k in m :: Ast(b, m[k]).Some?
  {
    map k | k in m :: Ast(b, m[k]).value
  }

  lemma ChildTexts(b: Builtins, m: map<string, PyValue>, k: string)
    requires forall k | k in m :: Ast(b, m[k]).Some?
    ensures k in m ==> forall s :: Children(b, m)[k] == PyStr(s) <==> m[k] == PyStr(s)
    ensures k in m ==> (Children(b, m)[k].PyStr? <==> m[k].PyStr?)
  {
    if k in m {
      forall s ensures Children(b, m)[k] == PyStr(s) <==> m[k] == PyStr(s) { TextsStay(b, m[k], s); }
      if Children(b, m)[k].PyStr? {
        TextsStay(b, m[k], Children(b, m)[k].s);
      }
    }
  }

  /** Where a node is neither a literal nor a known indicator, exactly its children change. */
  lemma AstOfPlainNode(b: Builtins, m: map<string, PyValue>)
    requires !IsKind(m, "literal") && !KnownIndicator(b, m)
    ensures Ast(b, PyDict(m)) == None <==> exists k :: k in m && Ast(b, m[k]) == None
    ensures Ast(b, PyDict(m)).Some? ==>
              && Ast(b, PyDict(m)).value.PyDict? && Ast(b, PyDict(m)).value.fields.Keys == m.Keys
              && forall k | k in m :: Ast(b, m[k]) == Some(Ast(b, PyDict(m)).value.fields[k])
  {
    if forall k | k in m :: Ast(b, m[k]).Some? {
      var n := Children(b, m);
      ChildTexts(b, m, "kind");
      ChildTexts(b, m, "indicator_id");
      assert LiteralNode(b, n) == Some(n);
      PlainIndicatorNode(b, m, n);
    }
  }

  lemma PlainIndicatorNode(b: Builtins, m: map<string, PyValue>, n: map<string, PyValue>)
    requires n.Keys == m.Keys && !KnownIndicator(b, m)
    requires "kind" in m ==> forall s :: n["kind"] == PyStr(s) <==> m["kind"] == PyStr(s)
    requires "indicator_id" in m ==> forall s :: n["indicator_id"] == PyStr(s) <==> m["indicator_id"] == PyStr(s)
    ensures IndicatorNode(b, n) == Some(n)
  {
    if "kind" in n && n["kind"] == PyStr("indicator") && "indicator_id" in n && n["indicator_id"].PyStr? {
      var p := b.find(n["indicator_id"].s);
      assert m["indicator_id"] == PyStr(n["indicator_id"].s);
      assert p.Some? && p.value.isIndicator ==> CallsIndicator(b, m, p.value);
    }
  }

  /** A literal has its value retyped; the rewriting fails if it has no type or its
      value does not match it. */
  lemma AstOfLiteral(b: Builtins, m: map<string, PyValue>)
    requires IsKind(m, "literal") && forall k | k in m :: Ast(b, m[k]).Some?
    ensures
      var r := Ast(b, PyDict(m));
      var typed := if "value_type" in m && m["value_type"].PyStr? && "value" in m
                   then b.typed(Ast(b, m["value"]).value, m["value_type"].s) else None;
      && (r.Some? <==> typed.Some?)
      && (r.Some? ==>
            && r.value.PyDict? && r.value.fields.Keys == m.Keys && Some(r.value.fields["value"]) == typed
            && forall k | k in m && k != "value" :: Ast(b, m[k]) == Some(r.value.fields[k]))
  {
    var n := Children(b, m);
    ChildTexts(b, m, "kind");
    ChildTexts(b, m, "value_type");
    assert n["kind"] == PyStr("literal");
    KindsDiffer();
    var literal := LiteralNode(b, n);
    if literal.Some? {
      assert literal.value["kind"] == PyStr("literal");
      assert IndicatorNode(b, literal.value) == Some(literal.value);
    }
  }

  lemma KindsDiffer()
    ensures "literal" != "indicator" && "kind" != "value" && "value" != "parameters"
  {
    assert "literal"[0] == 'l' && "indicator"[0] == 'i';
    assert "kind"[0] == 'k' && "value"[0] == 'v' && "parameters"[0] == 'p';
  }

  /** A known indicator has each of its parameters held as its field holds it; the
      rewriting fails if it has no parameters. */
  lemma AstOfIndicator(b: Builtins, m: map<string, PyValue>, p: Primitive)
    requires CallsIndicator(b, m, p) && forall k | k in m :: Ast(b, m[k]).Some?
    ensures
      var r := Ast(b, PyDict(m));
      && (r.Some? <==> "parameters" in m && m["parameters"].PyDict?)
      && (r.Some? ==>
            && r.value.PyDict? && r.value.fields.Keys == m.Keys
            && (forall k | k in m && k != "parameters" :: Ast(b, m[k]) == Some(r.value.fields[k]))
            && HeldParameters(b, p, Ast(b, m["parameters"]).value, r.value.fields["parameters"]))
  {
    var n := Children(b, m);
    ChildTexts(b, m, "kind");
    ChildTexts(b, m, "indicator_id");
    KindsDiffer();
    assert n["kind"] == PyStr("indicator") && n["indicator_id"] == m["indicator_id"];
    assert LiteralNode(b, n) == Some(n);
    if "parameters" in m {
      DictsStay(b, m["parameters"]);
      if n["parameters"].PyDict? {
        ParametersHeld(b, p, n["parameters"].fields);
      }
    }
  }

  lemma DictsStay(b: Builtins, v: PyValue)
    requires Ast(b, v).Some?
    ensures Ast(b, v).value.PyDict? <==> v.PyDict?
  {
  }

  /** The same parameters, each as the indicator's field of that name holds it. */
  ghost predicate HeldParameters(b: Builtins, p: Primitive, v: PyValue, r: PyValue) {
    v.PyDict? && r.PyDict? && r.fields.Keys == v.fields.Keys
    && forall k | k in v.fields :: HeldAs(b, p.fields, k, v.fields[k], r.fields[k])
  }

  lemma ParametersHeld(b: Builtins, p: Primitive, m: map<string, PyValue>)
    ensures HeldParameters(b, p, PyDict(m), PyDict(RegistryValues(b, p, m)))
  {
    forall k | k in m ensures HeldAs(b, p.fields, k, m[k], RegistryValues(b, p, m)[k]) {
      RegistryValueHeld(b, p.fields, k, m[k]);
    }
  }

  // ----- components -----

  /** What a component keeps and what is rewritten in it. */
  lemma ComponentParts(b: Builtins, c: Component)
    ensures
      var r := Rewritten(b, c);
      && (r == None <==> (c.condition.Some? && Ast(b, c.condition.value) == None)
                         || exists i :: 0 <= i < |c.actions| && Ast(b, c.actions[i]) == None)
      && (r.Some? ==>
            && r.value.id == c.id && r.value.primitive == c.primitive
            && r.value.valueExpression == c.valueExpression && r.value.elseActions == c.elseActions
            && r.value.config == RewrittenConfig(b, c)
            && (c.condition == None <==> r.value.condition == None)
            && (c.condition.Some? ==> Ast(b, c.condition.value) == r.value.condition)
            && |r.value.actions| == |c.actions|
            && forall i | 0 <= i < |c.actions| :: Ast(b, c.actions[i]) == Some(r.value.actions[i]))
  {
  }

  // ----- order -----

  /** Connections are ordered by source, its port, target and its port. */
  ghost predicate LinkBefore(c: Connection, d: Connection) {
    || Before(c.sourceId, d.sourceId)
    || (c.sourceId == d.sourceId
        && (|| Before(c.sourcePort, d.sourcePort)
            || (c.sourcePort == d.sourcePort
                && (|| Before(c.targetId, d.targetId)
                    || (c.targetId == d.targetId && Before(c.targetPort, d.targetPort))))))
  }

  ghost predicate EntryBefore(c: Entrypoint, d: Entrypoint) {
    Before(c.eventId, d.eventId) || (c.eventId == d.eventId && Before(c.targetId, d.targetId))
  }

  lemma TupleHead(x: string, xs: seq<string>, y: string, ys: seq<string>)
    ensures TupleLess([x] + xs, [y] + ys) <==> Before(x, y) || (x == y && TupleLess(xs, ys))
  {
    StringLessIff(x, y);
    assert ([x] + xs)[1..] == xs && ([y] + ys)[1..] == ys;
  }

  lemma LinkKeyIff(c: Connection, d: Connection)
    ensures TupleLess(ConnectionKey(c), ConnectionKey(d)) <==> LinkBefore(c, d)
  {
    TupleHead(c.targetPort, [], d.targetPort, []);
    TupleHead(c.targetId, [c.targetPort], d.targetId, [d.targetPort]);
    TupleHead(c.sourcePort, [c.targetId, c.targetPort], d.sourcePort, [d.targetId, d.targetPort]);
    TupleHead(c.sourceId, [c.sourcePort, c.targetId, c.targetPort],
              d.sourceId, [d.sourcePort, d.targetId, d.targetPort]);
    KeyParts(c);
    KeyParts(d);
  }

  lemma KeyParts(c: Connection)
    ensures [c.targetPort] + [] == [c.targetPort]
    ensures [c.targetId] + [c.targetPort] == [c.targetId, c.targetPort]
    ensures [c.sourcePort] + [c.targetId, c.targetPort] == [c.sourcePort, c.targetId, c.targetPort]
    ensures [c.sourceId] + [c.sourcePort, c.targetId, c.targetPort] == ConnectionKey(c)
  {
  }

  lemma EntryKeyIff(c: Entrypoint, d: Entrypoint)
    ensures TupleLess(EntrypointKey(c), EntrypointKey(d)) <==> EntryBefore(c, d)
  {
    TupleHead(c.targetId, [], d.targetId, []);
    TupleHead(c.eventId, [c.targetId], d.eventId, [d.targetId]);
    assert [c.eventId] + [c.targetId] == EntrypointKey(c) && [d.eventId] + [d.targetId] == EntrypointKey(d);
    assert [c.targetId] + [] == [c.targetId] && [d.targetId] + [] == [d.targetId];
  }

  /** No element comes after one that it belongs before. */
  ghost predicate LinksAscend(cs: seq<Connection>) {
    forall i, j | 0 <= i < j < |cs| :: !LinkBefore(cs[j], cs[i])
  }

  ghost predicate EntriesAscend(es: seq<Entrypoint>) {
    forall i, j | 0 <= i < j < |es| :: !EntryBefore(es[j], es[i])
  }

  ghost predicate ItemsAscend(xs: seq<Item>) {
    forall i, j | 0 <= i < j < |xs| :: !Before(xs[j].id, xs[i].id)
  }

  ghost predicate ComponentsAscend(cs: seq<ComponentPayload>) {
    forall i, j | 0 <= i < j < |cs| :: !Before(cs[j].id, cs[i].id)
  }

  lemma LinksSorted(cs: seq<Connection>, es: seq<Entrypoint>)
    ensures LinksAscend(Sort(cs, ConnectionKey, TupleLess)) && EntriesAscend(Sort(es, EntrypointKey, TupleLess))
  {
    TupleLessStrictTotal();
    SortSorted(cs, ConnectionKey, TupleLess);
    SortSorted(es, EntrypointKey, TupleLess);
    var sorted, entries := Sort(cs, ConnectionKey, TupleLess), Sort(es, EntrypointKey, TupleLess);
    forall i, j | 0 <= i < j < |sorted| ensures !LinkBefore(sorted[j], sorted[i]) {
      LinkKeyIff(sorted[j], sorted[i]);
    }
    forall i, j | 0 <= i < j < |entries| ensures !EntryBefore(entries[j], entries[i]) {
      EntryKeyIff(entries[j], entries[i]);
    }
  }

  lemma ItemsSorted(t: Table, xs: seq<Item>)
    ensures ItemsAscend(Map(NormalItem(t), SortedItems(xs)))
  {
    StringLessStrictTotal();
    SortSorted(xs, IdOfItem, StringLess);
    var sorted := SortedItems(xs);
    forall i, j | 0 <= i < j < |sorted| ensures !Before(NormalItem(t)(sorted[j]).id, NormalItem(t)(sorted[i]).id) {
      assert !StringLess(IdOfItem(sorted[j]), IdOfItem(sorted[i]));
      StringLessIff(sorted[j].id, sorted[i].id);
    }
  }

  lemma ComponentsSorted(b: Builtins, t: Table, cs: seq<Component>)
    ensures ComponentsAscend(Map(Image(b, t), SortedComponents(cs)))
  {
    StringLessStrictTotal();
    SortSorted(cs, IdOfComponent, StringLess);
    var sorted := SortedComponents(cs);
    forall i, j | 0 <= i < j < |sorted| ensures !Before(Image(b, t)(sorted[j]).id, Image(b, t)(sorted[i]).id) {
      assert !StringLess(IdOfComponent(sorted[j]), IdOfComponent(sorted[i]));
      StringLessIff(sorted[j].id, sorted[i].id);
    }
  }

  /** The items of ys, each with its other fields normalized, in any order. */
  ghost predicate HoldsItems(t: Table, xs: seq<Item>, ys: seq<Item>) {
    exists zs: seq<Item> :: multiset(xs) == multiset(zs) && |zs| == |ys|
                         && forall i | 0 <= i < |ys| :: zs[i] == Item(ys[i].id, Normalized(t, ys[i].rest))
  }

  lemma ItemsHeld(t: Table, xs: seq<Item>)
    ensures HoldsItems(t, Map(NormalItem(t), SortedItems(xs)), xs)
  {
    var zs := Map(NormalItem(t), xs);
    SortMap(NormalItem(t), xs, IdOfItem, IdOfItem, StringLess);
    SortPermutes(zs, IdOfItem, StringLess);
  }

  /** What stands in the payload for a component: its rewritten parts, normalized. */
  lemma ImageParts(b: Builtins, t: Table, c: Component)
    requires Rewritten(b, c).Some?
    ensures
      var r, p := Rewritten(b, c).value, Image(b, t)(c);
      && p.ComponentPayload? && p.id == c.id && p.primitive == c.primitive
      && p.config == Normalized(t, PyDict(r.config))
      && (r.condition == None <==> p.condition == None) && (c.valueExpression == None <==> p.valueExpression == None)
      && (r.condition.Some? ==> p.condition == Some(Normalized(t, r.condition.value)))
      && (c.valueExpression.Some? ==> p.valueExpression == Some(Normalized(t, c.valueExpression.value)))
      && |p.actions| == |c.actions| && |p.elseActions| == |c.elseActions|
      && (forall i | 0 <= i < |p.actions| :: p.actions[i] == Normalized(t, r.actions[i]))
      && (forall i | 0 <= i < |p.elseActions| :: p.elseActions[i] == Normalized(t, c.elseActions[i]))
  {
  }

  /** Every collection of the payload that is sorted ascends by its key, and holds what
      the document holds; groups and universes keep their order. */
  lemma PayloadAscends(b: Builtins, t: Table, doc: Document)
    requires PayloadOf(b, t, doc).Some?
    ensures
      var p := PayloadOf(b, t, doc).value;
      && ItemsAscend(p.assetSets) && ItemsAscend(p.parameters) && ItemsAscend(p.state)
      && ComponentsAscend(p.components) && LinksAscend(p.connections) && EntriesAscend(p.entrypoints)
      && HoldsItems(t, p.assetSets, doc.assetSets) && HoldsItems(t, p.parameters, doc.parameters)
      && HoldsItems(t, p.state, doc.state)
      && multiset(p.components) == multiset(Map(Image(b, t), doc.components))
      && multiset(p.connections) == multiset(doc.connections)
      && multiset(p.entrypoints) == multiset(doc.entrypoints)
      && |p.groups| == |doc.groups| && |p.universes| == |doc.universes| && p.seed == doc.seed
      && (forall i | 0 <= i < |p.groups| ::
            p.groups[i] == Item(doc.groups[i].id, Normalized(t, doc.groups[i].rest)))
      && (forall i | 0 <= i < |p.universes| ::
            p.universes[i] == Item(doc.universes[i].id, Normalized(t, doc.universes[i].rest)))
  {
    ItemsSorted(t, doc.assetSets);
    ItemsSorted(t, doc.parameters);
    ItemsSorted(t, doc.state);
    ItemsHeld(t, doc.assetSets);
    ItemsHeld(t, doc.parameters);
    ItemsHeld(t, doc.state);
    SortMap(Image(b, t), doc.components, IdOfComponent, IdOfPayload, StringLess);
    SortPermutes(Map(Image(b, t), doc.components), IdOfPayload, StringLess);
    ComponentsSorted(b, t, doc.components);
    LinksSorted(doc.connections, doc.entrypoints);
    SortPermutes(doc.connections, ConnectionKey, TupleLess);
    SortPermutes(doc.entrypoints, EntrypointKey, TupleLess);
  }
}
