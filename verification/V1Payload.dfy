/** The semantic payload of a V1 strategy: sorted collections, registry defaults
    filled in, typed values normalized, and metadata left out. */
module V1Payload {
  import opened Options
  import opened Sorting
  import opened KeyedImages
  import opened Normalization

  datatype Field = Field(name: string, valueType: string, required: bool, default: PyValue)

  datatype Primitive = Primitive(isIndicator: bool, fields: seq<Field>)

  /** The primitive registry, and `normalize_typed_value`: None where the value
      does not match the type, or there is no such type. */
  datatype Builtins = Builtins(find: string -> Option<Primitive>, typed: (PyValue, string) -> Option<PyValue>)

  /** A definition: its id and its other fields. */
  datatype Item = Item(id: string, rest: PyValue)

  datatype Component = Component(id: string, primitive: string, config: map<string, PyValue>,
                                 condition: Option<PyValue>,
                                 valueExpression: Option<PyValue>, actions: seq<PyValue>, elseActions: seq<PyValue>)

  datatype Connection = Connection(sourceId: string, sourcePort: string, targetId: string, targetPort: string)

  datatype Entrypoint = Entrypoint(eventId: string, targetId: string)

  datatype Document = Document(metadata: PyValue, seed: int, assetSets: seq<Item>, groups: seq<Item>,
                               universes: seq<Item>,
                               parameters: seq<Item>, state: seq<Item>, components: seq<Component>,
                               connections: seq<Connection>, entrypoints: seq<Entrypoint>)

  // ----- registry values -----

  /** The field spec that a dictionary keyed by name ends up with. */
  function FieldNamed(fields: seq<Field>, name: string): Option<Field> {
    if fields == [] then None
    else if fields[|fields| - 1].name == name then Some(fields[|fields| - 1])
    else FieldNamed(fields[..|fields| - 1], name)
  }

  function RegistryValue(b: Builtins, v: PyValue, field: Option<Field>): PyValue {
    if field.None? then v
    else
      var typed := b.typed(v, field.value.valueType);
      if typed.None? then v else typed.value
  }

  /** The defaults of the optional fields that config does not set. */
  function Defaults(fields: seq<Field>, config: map<string, PyValue>): map<string, PyValue> {
    if fields == [] then map[]
    else
      var before, last := Defaults(fields[..|fields| - 1], config), fields[|fields| - 1];
      if last.required || last.name in config then before else before[last.name := last.default]
  }

  function ResolveConfig(p: Primitive, config: map<string, PyValue>): map<string, PyValue> {
    Defaults(p.fields, config) + config
  }

  function RegistryValues(b: Builtins, p: Primitive, m: map<string, PyValue>): map<string, PyValue> {
    map k | k in m :: RegistryValue(b, m[k], FieldNamed(p.fields, k))
  }

  // ----- expressions and actions -----

  /** What `_normalize_v1_ast` does to a rebuilt dictionary: literals are retyped,
      and so are the parameters of a known indicator. */
  function LiteralNode(b: Builtins, m: map<string, PyValue>): Option<map<string, PyValue>> {
    if !("kind" in m && m["kind"] == PyStr("literal")) then Some(m)
    else if !("value_type" in m && m["value_type"].PyStr? && "value" in m) then None
    else
      var typed := b.typed(m["value"], m["value_type"].s);
      if typed.None? then None else Some(m["value" := typed.value])
  }

  function IndicatorNode(b: Builtins, m: map<string, PyValue>): Option<map<string, PyValue>> {
    if !("kind" in m && m["kind"] == PyStr("indicator") && "indicator_id" in m && m["indicator_id"].PyStr?) then Some(m)
    else
      var p := b.find(m["indicator_id"].s);
      if p.None? || !p.value.isIndicator then Some(m)
      else if !("parameters" in m && m["parameters"].PyDict?) then None
      else Some(m["parameters" := PyDict(RegistryValues(b, p.value, m["parameters"].fields))])
  }

  /** `_normalize_v1_ast`; None where it raises. */
  function Ast(b: Builtins, v: PyValue): Option<PyValue>
    decreases v, 1
  {
    match v
    case PyList(items) =>
      if AllAsts(b, v) then Some(PyList(seq(|items|, i requires 0 <= i < |items| => Ast(b, items[i]).value))) else None
    case PyDict(m) =>
      if AllAsts(b, v) then
        var literal := LiteralNode(b, map k | k in m :: Ast(b, m[k]).value);
        var node := if literal.None? then None else IndicatorNode(b, literal.value);
        if node.None? then None else Some(PyDict(node.value))
      else None
    case _ => Some(v)
  }

  predicate AllAsts(b: Builtins, v: PyValue)
    ensures v.PyList? && AllAsts(b, v) ==> forall i | 0 <= i < |v.items| :: Ast(b, v.items[i]).Some?
    ensures v.PyDict? && AllAsts(b, v) ==> forall k | k in v.fields :: Ast(b, v.fields[k]).Some?
    decreases v, 0
  {
    match v
    case PyList(items) => forall i | 0 <= i < |items| :: Ast(b, items[i]).Some?
    case PyDict(m) => forall k | k in m :: Ast(b, m[k]).Some?
    case _ => true
  }

  // ----- components -----

  function OptionalAst(b: Builtins, v: Option<PyValue>): Option<Option<PyValue>> {
    if v.None? then Some(None)
    else
      var r := Ast(b, v.value);
      if r.None? then None else Some(Some(r.value))
  }

  predicate AstsDefined(b: Builtins, vs: seq<PyValue>) {
    forall i | 0 <= i < |vs| :: Ast(b, vs[i]).Some?
  }

  function Asts(b: Builtins, vs: seq<PyValue>): seq<PyValue>
    requires AstsDefined(b, vs)
  {
    seq(|vs|, i requires 0 <= i < |vs| => Ast(b, vs[i]).value)
  }

  function RewrittenConfig(b: Builtins, c: Component): map<string, PyValue> {
    var p := b.find(c.primitive);
    if p.None? then c.config else RegistryValues(b, p.value, ResolveConfig(p.value, c.config))
  }

  /** The body of the component loop; None where it raises. Only the condition and
      the actions are rewritten: a value expression and the else actions are not. */
  function Rewritten(b: Builtins, c: Component): (r: Option<Component>)
    ensures r.Some? ==> r.value.id == c.id
  {
    var condition := OptionalAst(b, c.condition);
    if condition.None? || !AstsDefined(b, c.actions) then None
    else Some(c.(config := RewrittenConfig(b, c), condition := condition.value, actions := Asts(b, c.actions)))
  }

  // ----- the payload -----

  datatype ComponentPayload =
    | Raises(id: string)
    | ComponentPayload(id: string, primitive: string, config: PyValue, condition: Option<PyValue>,
                       valueExpression: Option<PyValue>, actions: seq<PyValue>, elseActions: seq<PyValue>)

  datatype Payload = Payload(seed: int, assetSets: seq<Item>, groups: seq<Item>, universes: seq<Item>,
                             parameters: seq<Item>, state: seq<Item>, components: seq<ComponentPayload>,
                             connections: seq<Connection>, entrypoints: seq<Entrypoint>)

  function Normal(t: Table): PyValue -> PyValue {
    v => Normalized(t, v)
  }

  function NormalItem(t: Table): Item -> Item {
    (x: Item) => Item(x.id, Normalized(t, x.rest))
  }

  function NormalOption(t: Table, v: Option<PyValue>): Option<PyValue> {
    if v.None? then None else Some(Normalized(t, v.value))
  }

  function NormalComponent(t: Table, c: Component): ComponentPayload {
    ComponentPayload(c.id, c.primitive, Normalized(t, PyDict(c.config)), NormalOption(t, c.condition),
                     NormalOption(t, c.valueExpression), Map(Normal(t), c.actions), Map(Normal(t), c.elseActions))
  }

  function Image(b: Builtins, t: Table): Component -> ComponentPayload {
    (c: Component) =>
      var r := Rewritten(b, c);
      if r.None? then Raises(c.id) else NormalComponent(t, r.value)
  }

  function IdOfItem(x: Item): string { x.id }

  function IdOfComponent(c: Component): string { c.id }

  function IdOfPayload(c: ComponentPayload): string { c.id }

  function ConnectionKey(c: Connection): seq<string> { [c.sourceId, c.sourcePort, c.targetId, c.targetPort] }

  function EntrypointKey(e: Entrypoint): seq<string> { [e.eventId, e.targetId] }

  function SortedItems(xs: seq<Item>): seq<Item> { Sort(xs, IdOfItem, StringLess) }

  function SortedComponents(cs: seq<Component>): seq<Component> { Sort(cs, IdOfComponent, StringLess) }

  predicate Succeeds(b: Builtins, cs: seq<Component>) {
    forall i | 0 <= i < |cs| :: Rewritten(b, cs[i]).Some?
  }

  /** The payload that is hashed, or None where building it raises. */
  function PayloadOf(b: Builtins, t: Table, doc: Document): Option<Payload> {
    if !Succeeds(b, doc.components) then None
    else Some(Payload(doc.seed,
                      Map(NormalItem(t), SortedItems(doc.assetSets)),
                      Map(NormalItem(t), doc.groups),
                      Map(NormalItem(t), doc.universes),
                      Map(NormalItem(t), SortedItems(doc.parameters)),
                      Map(NormalItem(t), SortedItems(doc.state)),
                      Map(Image(b, t), SortedComponents(doc.components)),
                      Sort(doc.connections, ConnectionKey, TupleLess),
                      Sort(doc.entrypoints, EntrypointKey, TupleLess)))
  }

  lemma SortedSucceeds(b: Builtins, cs: seq<Component>)
    ensures Succeeds(b, SortedComponents(cs)) <==> Succeeds(b, cs)
  {
    SortPermutes(cs, IdOfComponent, StringLess);
    var sorted := SortedComponents(cs);
    forall c ensures c in cs <==> c in sorted {
      assert c in multiset(cs) <==> c in multiset(sorted);
    }
    SucceedsMembers(b, cs);
    SucceedsMembers(b, sorted);
  }

  lemma SucceedsMembers(b: Builtins, cs: seq<Component>)
    ensures Succeeds(b, cs) <==> forall c | c in cs :: Rewritten(b, c).Some?
  {
  }

  /** The payload dictionary, while it is rewritten in place. */
  class PayloadDraft {
    var assetSets: seq<Item>
    var parameters: seq<Item>
    var state: seq<Item>
    var components: seq<Component>
    var connections: seq<Connection>
    var entrypoints: seq<Entrypoint>

    constructor (doc: Document)
      ensures assetSets == doc.assetSets && parameters == doc.parameters && state == doc.state
      ensures components == doc.components && connections == doc.connections && entrypoints == doc.entrypoints
    {
      assetSets, parameters, state := doc.assetSets, doc.parameters, doc.state;
      components, connections, entrypoints := doc.components, doc.connections, doc.entrypoints;
    }

    /** The loop over the sorted components. */
    method RewriteComponents(b: Builtins) returns (ok: bool)
      modifies this`components
      ensures ok <==> Succeeds(b, old(components))
      ensures |components| == |old(components)|
      ensures ok ==> forall i | 0 <= i < |components| :: Rewritten(b, old(components)[i]) == Some(components[i])
    {
      ghost var was := components;
      for i := 0 to |components|
        invariant |components| == |was|
        invariant forall j | 0 <= j < i :: Rewritten(b, was[j]) == Some(components[j])
        invariant forall j | i <= j < |was| :: components[j] == was[j]
      {
        var component := Rewritten(b, components[i]);
        if component.None? {
          return false;
        }
        components := components[i := component.value];
      }
      ok := true;
    }

    method Rewrite(b: Builtins) returns (ok: bool)
      modifies this
      ensures ok <==> Succeeds(b, old(components))
      ensures ok ==>
        && assetSets == SortedItems(old(assetSets))
        && parameters == SortedItems(old(parameters))
        && state == SortedItems(old(state))
        && connections == Sort(old(connections), ConnectionKey, TupleLess)
        && entrypoints == Sort(old(entrypoints), EntrypointKey, TupleLess)
        && |components| == |SortedComponents(old(components))|
        && forall i | 0 <= i < |components| :: Rewritten(b, SortedComponents(old(components))[i]) == Some(components[i])
    {
      SortedSucceeds(b, components);
      assetSets := SortedItems(assetSets);
      parameters := SortedItems(parameters);
      state := SortedItems(state);
      components := SortedComponents(components);
      ok := RewriteComponents(b);
      if ok {
        connections := Sort(connections, ConnectionKey, TupleLess);
        entrypoints := Sort(entrypoints, EntrypointKey, TupleLess);
      }
    }
  }

  /** `_v1_semantic_payload`. */
  method SemanticPayload(b: Builtins, t: Table, doc: Document) returns (payload: Option<Payload>)
    ensures payload == PayloadOf(b, t, doc)
  {
    var draft := new PayloadDraft(doc);
    var ok := draft.Rewrite(b);
    if !ok {
      return None;
    }
    var components := NormalComponents(b, t, SortedComponents(doc.components), draft.components);
    payload := Some(Payload(doc.seed, Map(NormalItem(t), draft.assetSets), Map(NormalItem(t), doc.groups),
                            Map(NormalItem(t), doc.universes), Map(NormalItem(t), draft.parameters),
                            Map(NormalItem(t), draft.state), components, draft.connections, draft.entrypoints));
  }

  method NormalComponents(b: Builtins, t: Table, ghost sorted: seq<Component>, rewritten: seq<Component>)
    returns (r: seq<ComponentPayload>)
    requires |rewritten| == |sorted| && forall i | 0 <= i < |sorted| :: Rewritten(b, sorted[i]) == Some(rewritten[i])
    ensures r == Map(Image(b, t), sorted)
  {
    r := [];
    for i := 0 to |rewritten|
      invariant |r| == i && forall j | 0 <= j < i :: r[j] == Image(b, t)(sorted[j])
    {
      ImageOfRewritten(b, t, sorted[i], rewritten[i]);
      r := r + [NormalComponent(t, rewritten[i])];
    }
  }

  lemma ImageOfRewritten(b: Builtins, t: Table, c: Component, r: Component)
    requires Rewritten(b, c) == Some(r)
    ensures Image(b, t)(c) == NormalComponent(t, r)
  {
  }

  // ----- what the payload identifies -----

  /** The same values in the same order. */
  ghost predicate SameValues(t: Table, xs: seq<PyValue>, ys: seq<PyValue>) {
    |xs| == |ys| && forall i | 0 <= i < |xs| :: SameContent(t, xs[i], ys[i])
  }

  ghost predicate SameItem(t: Table, x: Item, y: Item) {
    x.id == y.id && SameContent(t, x.rest, y.rest)
  }

  ghost predicate SameItems(t: Table, xs: seq<Item>, ys: seq<Item>) {
    |xs| == |ys| && forall i | 0 <= i < |xs| :: SameItem(t, xs[i], ys[i])
  }

  /** The same items id by id, in any order of ids. */
  ghost predicate SameItemsById(t: Table, xs: seq<Item>, ys: seq<Item>) {
    forall id :: SameItems(t, WithKey(xs, IdOfItem, id), WithKey(ys, IdOfItem, id))
  }

  ghost predicate SameOption(t: Table, x: Option<PyValue>, y: Option<PyValue>) {
    x.Some? == y.Some? && (x.Some? ==> SameContent(t, x.value, y.value))
  }

  /** Two components whose rewritten parts have the same content. */
  ghost predicate SameComponent(b: Builtins, t: Table, c: Component, d: Component)
    requires Rewritten(b, c).Some? && Rewritten(b, d).Some?
  {
    var p, q := Rewritten(b, c).value, Rewritten(b, d).value;
    && c.id == d.id && c.primitive == d.primitive
    && SameContent(t, PyDict(p.config), PyDict(q.config))
    && SameOption(t, p.condition, q.condition)
    && SameValues(t, p.actions, q.actions)
    && SameOption(t, c.valueExpression, d.valueExpression)
    && SameValues(t, c.elseActions, d.elseActions)
  }

  ghost predicate SameComponents(b: Builtins, t: Table, cs: seq<Component>, ds: seq<Component>)
    requires Succeeds(b, cs) && Succeeds(b, ds)
  {
    |cs| == |ds| && forall i | 0 <= i < |cs| :: SameComponent(b, t, cs[i], ds[i])
  }

  lemma WithKeySucceeds(b: Builtins, cs: seq<Component>, id: string)
    requires Succeeds(b, cs)
    ensures Succeeds(b, WithKey(cs, IdOfComponent, id))
  {
    WithKeyMember(cs, IdOfComponent, id);
    SucceedsMembers(b, cs);
    SucceedsMembers(b, WithKey(cs, IdOfComponent, id));
  }

  ghost predicate SameComponentsById(b: Builtins, t: Table, cs: seq<Component>, ds: seq<Component>)
    requires Succeeds(b, cs) && Succeeds(b, ds)
  {
    forall id :: SameComponentsAt(b, t, cs, ds, id)
  }

  ghost predicate SameComponentsAt(b: Builtins, t: Table, cs: seq<Component>, ds: seq<Component>, id: string)
    requires Succeeds(b, cs) && Succeeds(b, ds)
  {
    WithKeySucceeds(b, cs, id);
    WithKeySucceeds(b, ds, id);
    SameComponents(b, t, WithKey(cs, IdOfComponent, id), WithKey(ds, IdOfComponent, id))
  }

  /** Two documents with the same meaning: metadata and the order of the sorted
      collections are no part of it; the order of groups, of universes and of
      actions is. */
  ghost predicate SameDocument(b: Builtins, t: Table, x: Document, y: Document)
    requires Succeeds(b, x.components) && Succeeds(b, y.components)
  {
    && x.seed == y.seed
    && SameItemsById(t, x.assetSets, y.assetSets)
    && SameItems(t, x.groups, y.groups)
    && SameItems(t, x.universes, y.universes)
    && SameItemsById(t, x.parameters, y.parameters)
    && SameItemsById(t, x.state, y.state)
    && SameComponentsById(b, t, x.components, y.components)
    && multiset(x.connections) == multiset(y.connections)
    && multiset(x.entrypoints) == multiset(y.entrypoints)
  }

  lemma SameValuesIff(t: Table, xs: seq<PyValue>, ys: seq<PyValue>)
    requires PlainDefaults(t)
    ensures Map(Normal(t), xs) == Map(Normal(t), ys) <==> SameValues(t, xs, ys)
  {
    var p, q := Map(Normal(t), xs), Map(Normal(t), ys);
    if |xs| == |ys| {
      forall i | 0 <= i < |xs| ensures p[i] == q[i] <==> SameContent(t, xs[i], ys[i]) {
        NormalizedIff(t, xs[i], ys[i]);
      }
    }
  }

  lemma SameItemsIff(t: Table, xs: seq<Item>, ys: seq<Item>)
    requires PlainDefaults(t)
    ensures Map(NormalItem(t), xs) == Map(NormalItem(t), ys) <==> SameItems(t, xs, ys)
  {
    var p, q := Map(NormalItem(t), xs), Map(NormalItem(t), ys);
    if |xs| == |ys| {
      forall i | 0 <= i < |xs| ensures p[i] == q[i] <==> SameItem(t, xs[i], ys[i]) {
        NormalizedIff(t, xs[i].rest, ys[i].rest);
      }
    }
  }

  lemma SortedItemsIff(t: Table, xs: seq<Item>, ys: seq<Item>)
    requires PlainDefaults(t)
    ensures Map(NormalItem(t), SortedItems(xs)) == Map(NormalItem(t), SortedItems(ys)) <==> SameItemsById(t, xs, ys)
  {
    StringLessStrictTotal();
    SortedImagesIff(NormalItem(t), xs, ys, IdOfItem, IdOfItem, StringLess);
    forall id
      ensures Map(NormalItem(t), WithKey(xs, IdOfItem, id)) == Map(NormalItem(t), WithKey(ys, IdOfItem, id))
         <==> SameItems(t, WithKey(xs, IdOfItem, id), WithKey(ys, IdOfItem, id))
    {
      SameItemsIff(t, WithKey(xs, IdOfItem, id), WithKey(ys, IdOfItem, id));
    }
  }

  lemma SameOptionIff(t: Table, x: Option<PyValue>, y: Option<PyValue>)
    requires PlainDefaults(t)
    ensures NormalOption(t, x) == NormalOption(t, y) <==> SameOption(t, x, y)
  {
    if x.Some? && y.Some? {
      NormalizedIff(t, x.value, y.value);
    }
  }

  lemma SameComponentIff(b: Builtins, t: Table, c: Component, d: Component)
    requires PlainDefaults(t) && Rewritten(b, c).Some? && Rewritten(b, d).Some?
    ensures Image(b, t)(c) == Image(b, t)(d) <==> SameComponent(b, t, c, d)
  {
    var p, q := Rewritten(b, c).value, Rewritten(b, d).value;
    NormalizedIff(t, PyDict(p.config), PyDict(q.config));
    SameOptionIff(t, p.condition, q.condition);
    SameOptionIff(t, c.valueExpression, d.valueExpression);
    SameValuesIff(t, p.actions, q.actions);
    SameValuesIff(t, c.elseActions, d.elseActions);
  }

  lemma SameComponentsIff(b: Builtins, t: Table, cs: seq<Component>, ds: seq<Component>)
    requires PlainDefaults(t) && Succeeds(b, cs) && Succeeds(b, ds)
    ensures Map(Image(b, t), cs) == Map(Image(b, t), ds) <==> SameComponents(b, t, cs, ds)
  {
    var p, q := Map(Image(b, t), cs), Map(Image(b, t), ds);
    if |cs| == |ds| {
      forall i | 0 <= i < |cs| ensures p[i] == q[i] <==> SameComponent(b, t, cs[i], ds[i]) {
        SameComponentIff(b, t, cs[i], ds[i]);
      }
    }
  }

  lemma SortedComponentsIff(b: Builtins, t: Table, cs: seq<Component>, ds: seq<Component>)
    requires PlainDefaults(t) && Succeeds(b, cs) && Succeeds(b, ds)
    ensures Map(Image(b, t), SortedComponents(cs)) == Map(Image(b, t), SortedComponents(ds))
       <==> SameComponentsById(b, t, cs, ds)
  {
    StringLessStrictTotal();
    SortedImagesIff(Image(b, t), cs, ds, IdOfComponent, IdOfPayload, StringLess);
    forall id
      ensures Map(Image(b, t), WithKey(cs, IdOfComponent, id)) == Map(Image(b, t), WithKey(ds, IdOfComponent, id))
         <==> SameComponentsAt(b, t, cs, ds, id)
    {
      WithKeySucceeds(b, cs, id);
      WithKeySucceeds(b, ds, id);
      SameComponentsIff(b, t, WithKey(cs, IdOfComponent, id), WithKey(ds, IdOfComponent, id));
    }
  }

  lemma LinksIff(x: Document, y: Document)
    ensures Sort(x.connections, ConnectionKey, TupleLess) == Sort(y.connections, ConnectionKey, TupleLess)
       <==> multiset(x.connections) == multiset(y.connections)
    ensures Sort(x.entrypoints, EntrypointKey, TupleLess) == Sort(y.entrypoints, EntrypointKey, TupleLess)
       <==> multiset(x.entrypoints) == multiset(y.entrypoints)
  {
    TupleLessStrictTotal();
    KeysIdentify();
    SortIsMultiset(x.connections, y.connections, ConnectionKey, TupleLess);
    SortIsMultiset(x.entrypoints, y.entrypoints, EntrypointKey, TupleLess);
  }

  lemma KeysIdentify()
    ensures Identifies(ConnectionKey) && Identifies(EntrypointKey)
  {
    forall c: Connection, d: Connection | ConnectionKey(c) == ConnectionKey(d) ensures c == d {
      assert ConnectionKey(c)[0] == ConnectionKey(d)[0] && ConnectionKey(c)[1] == ConnectionKey(d)[1];
      assert ConnectionKey(c)[2] == ConnectionKey(d)[2] && ConnectionKey(c)[3] == ConnectionKey(d)[3];
    }
    forall c: Entrypoint, d: Entrypoint | EntrypointKey(c) == EntrypointKey(d) ensures c == d {
      assert EntrypointKey(c)[0] == EntrypointKey(d)[0] && EntrypointKey(c)[1] == EntrypointKey(d)[1];
    }
  }

  /** Two documents have the same payload exactly when they have the same meaning. */
  lemma PayloadIdentity(b: Builtins, t: Table, x: Document, y: Document)
    requires PlainDefaults(t) && Succeeds(b, x.components) && Succeeds(b, y.components)
    ensures PayloadOf(b, t, x) == PayloadOf(b, t, y) <==> SameDocument(b, t, x, y)
  {
    SortedItemsIff(t, x.assetSets, y.assetSets);
    SortedItemsIff(t, x.parameters, y.parameters);
    SortedItemsIff(t, x.state, y.state);
    SameItemsIff(t, x.groups, y.groups);
    SameItemsIff(t, x.universes, y.universes);
    SortedComponentsIff(b, t, x.components, y.components);
    LinksIff(x, y);
  }

  /** The same items in another order, with distinct ids. */
  ghost predicate Reordered<T(!new)>(xs: seq<T>, ys: seq<T>, id: T -> string) {
    DistinctKeys(xs, id) && DistinctKeys(ys, id) && forall x :: x in xs <==> x in ys
  }

  /** Renaming a strategy or reordering its sorted collections changes nothing,
      not even whether the payload can be built. */
  lemma ReorderingInvisible(b: Builtins, t: Table, x: Document, y: Document)
    requires x.seed == y.seed && x.groups == y.groups && x.universes == y.universes
    requires Reordered(x.assetSets, y.assetSets, IdOfItem) && Reordered(x.parameters, y.parameters, IdOfItem)
    requires Reordered(x.state, y.state, IdOfItem) && Reordered(x.components, y.components, IdOfComponent)
    requires multiset(x.connections) == multiset(y.connections) && multiset(x.entrypoints) == multiset(y.entrypoints)
    ensures PayloadOf(b, t, x) == PayloadOf(b, t, y)
  {
    StringLessStrictTotal();
    PermutationsSortAlike(x.assetSets, y.assetSets, IdOfItem, StringLess);
    PermutationsSortAlike(x.parameters, y.parameters, IdOfItem, StringLess);
    PermutationsSortAlike(x.state, y.state, IdOfItem, StringLess);
    PermutationsSortAlike(x.components, y.components, IdOfComponent, StringLess);
    LinksIff(x, y);
    SucceedsMembers(b, x.components);
    SucceedsMembers(b, y.components);
  }
}
