/** The visual graph of a working draft: which blocks hang below a Start block,
    whether the connections are well typed, and what a graph can be used for. */
module VisualGraph {
  import opened Options
  import opened Traversal

  type ValueType = string

  datatype Shape = Statement | Value | Hat

  datatype Execution = Verified | DraftOnlyBlock | NeedsContext

  datatype Slot = Slot(name: string, accepts: seq<ValueType>)

  datatype Definition = Definition(shape: Shape, output: Option<ValueType>, slots: seq<Slot>, execution: Execution)

  /** The block catalogue: the definition of each known block kind. */
  type Catalogue = string -> Option<Definition>

  datatype FieldValue = NumberField(n: real) | TextField(s: string) | BoolField(b: bool) | NullField

  datatype Block = Block(id: string, definitionId: string, objectRef: Option<string>, fields: map<string, FieldValue>)

  datatype Connection = Connection(childId: string, parentId: Option<string>, inputName: Option<string>)

  datatype Draft = Draft(blocks: seq<Block>, connections: seq<Connection>)

  datatype Diagnostic = TypeMismatch(blockId: string) | DuplicateStart(blockId: string)

  datatype Capability = Incomplete | DraftOnly | Unsupported | Ready

  datatype Graph = Graph(rootId: string, blockIds: seq<string>, capability: Capability)

  datatype Validation = Validation(graphs: seq<Graph>, diagnostics: seq<Diagnostic>)

  // ----- lookups -----

  function Find(blocks: seq<Block>, id: string): (r: Option<Block>)
    ensures r.Some? ==> r.value in blocks && r.value.id == id
  {
    if blocks == [] then None
    else if blocks[0].id == id then Some(blocks[0])
    else Find(blocks[1..], id)
  }

  function DefinitionOf(cat: Catalogue, blocks: seq<Block>, id: string): Option<Definition> {
    var b := Find(blocks, id);
    if b.None? then None else cat(b.value.definitionId)
  }

  function FindSlot(slots: seq<Slot>, name: Option<string>): Option<Slot> {
    if slots == [] then None
    else if name == Some(slots[0].name) then Some(slots[0])
    else FindSlot(slots[1..], name)
  }

  predicate Enters(c: Connection, parent: string, input: string) {
    c.parentId == Some(parent) && c.inputName == Some(input)
  }

  /** The first connection into an input of a block. */
  function FindInput(cs: seq<Connection>, parent: string, input: string): (r: Option<Connection>)
    ensures r.Some? ==> r.value in cs && r.value.parentId == Some(parent) && r.value.inputName == Some(input)
  {
    if cs == [] then None
    else if cs[0].parentId == Some(parent) && cs[0].inputName == Some(input) then Some(cs[0])
    else FindInput(cs[1..], parent, input)
  }

  /** `entryConnectionAccepts`. */
  predicate Accepts(accepted: seq<ValueType>, actual: ValueType) {
    || actual in accepted
    || ("AssetSet" in accepted && actual in ["Group", "Subgroup", "AssetSet"])
    || ("Value" in accepted && actual in ["Number", "Percentage", "Money", "Quantity", "Value"])
  }

  // ----- children -----

  /** A connection takes part only if it names a parent. */
  predicate Attached(c: Connection) {
    c.parentId.Some? && c.parentId.value != ""
  }

  function ChildrenOf(cs: seq<Connection>, parent: string): seq<string> {
    if cs == [] then []
    else
      var n := |cs| - 1;
      var before := ChildrenOf(cs[..n], parent);
      if Attached(cs[n]) && cs[n].parentId.value == parent then before + [cs[n].childId] else before
  }

  ghost predicate IsChildMap(g: Children, cs: seq<Connection>) {
    forall p :: Kids(g, p) == ChildrenOf(cs, p) && (p in g <==> ChildrenOf(cs, p) != [])
  }

  /** The first loop of the validator: children in connection order. */
  method BuildChildren(cs: seq<Connection>) returns (g: Children)
    ensures IsChildMap(g, cs)
  {
    g := map[];
    for i := 0 to |cs|
      invariant IsChildMap(g, cs[..i])
    {
      ghost var before := g;
      var c := cs[i];
      if Attached(c) {
        g := g[c.parentId.value := Kids(g, c.parentId.value) + [c.childId]];
      }
      assert cs[..i + 1][..i] == cs[..i] && cs[..i + 1][i] == c;
      forall p ensures Kids(g, p) == ChildrenOf(cs[..i + 1], p) && (p in g <==> ChildrenOf(cs[..i + 1], p) != []) {
        assert Kids(before, p) == ChildrenOf(cs[..i], p) && (p in before <==> ChildrenOf(cs[..i], p) != []);
      }
    }
    assert cs[..|cs|] == cs;
  }

  // ----- diagnostics -----

  function TypeDiagnostic(cat: Catalogue, blocks: seq<Block>, c: Connection): seq<Diagnostic> {
    if !Attached(c) then []
    else
      var parent, child := DefinitionOf(cat, blocks, c.parentId.value), DefinitionOf(cat, blocks, c.childId);
      if parent.None? || child.None? then []
      else
        var slot := FindSlot(parent.value.slots, c.inputName);
        if slot.Some? && (child.value.output.None? || !Accepts(slot.value.accepts, child.value.output.value))
        then [TypeMismatch(c.childId)] else []
  }

  /** The first block with an id is what that id names. */
  ghost predicate Names(blocks: seq<Block>, id: string, b: Block) {
    exists k :: 0 <= k < |blocks| && blocks[k] == b && b.id == id && forall i | 0 <= i < k :: blocks[i].id != id
  }

  /** Block id is known, and has this definition. */
  ghost predicate Defined(cat: Catalogue, blocks: seq<Block>, id: string, def: Definition) {
    exists b :: Names(blocks, id, b) && cat(b.definitionId) == Some(def)
  }

  /** The first slot with the name is the input of that name. */
  ghost predicate Offers(slots: seq<Slot>, name: string, slot: Slot) {
    exists k :: 0 <= k < |slots| && slots[k] == slot && slot.name == name
             && forall i | 0 <= i < k :: slots[i].name != name
  }

  /** What a slot may hold: one of the types it names, where AssetSet stands for
      groups too and Value for every kind of amount. */
  ghost predicate Fits(accepted: seq<ValueType>, actual: ValueType) {
    exists i :: 0 <= i < |accepted| && StandsFor(accepted[i], actual)
  }

  predicate StandsFor(named: ValueType, actual: ValueType) {
    || named == actual
    || (named == "AssetSet" && (actual == "Group" || actual == "Subgroup"))
    || (named == "Value" && (actual == "Number" || actual == "Percentage" || actual == "Money" || actual == "Quantity"))
  }

  /** The connection puts a known block where the known parent's slot does not take it. */
  ghost predicate Mistyped(cat: Catalogue, blocks: seq<Block>, c: Connection) {
    c.parentId.Some? && c.parentId.value != "" && c.inputName.Some?
    && exists parent, child, slot :: Misplaced(cat, blocks, c.parentId.value, parent, c.childId, child,
                                               c.inputName.value, slot)
  }

  ghost predicate Misplaced(cat: Catalogue, blocks: seq<Block>, parentId: string, parent: Definition, childId: string,
                            child: Definition, input: string, slot: Slot) {
    && Defined(cat, blocks, parentId, parent) && Defined(cat, blocks, childId, child)
    && Offers(parent.slots, input, slot)
    && (child.output.None? || !Fits(slot.accepts, child.output.value))
  }

  function TypeDiagnostics(cat: Catalogue, blocks: seq<Block>, cs: seq<Connection>): seq<Diagnostic> {
    if cs == [] then []
    else TypeDiagnostics(cat, blocks, cs[..|cs| - 1]) + TypeDiagnostic(cat, blocks, cs[|cs| - 1])
  }

  predicate IsHat(cat: Catalogue, b: Block) {
    cat(b.definitionId).Some? && cat(b.definitionId).value.shape == Hat
  }

  function Roots(cat: Catalogue, blocks: seq<Block>): seq<string> {
    if blocks == [] then []
    else
      var last := blocks[|blocks| - 1];
      Roots(cat, blocks[..|blocks| - 1]) + if IsHat(cat, last) then [last.id] else []
  }

  /** A Start's event type: its definition without the `start-` prefix. */
  function EventType(definitionId: string): string {
    if "start-" <= definitionId then definitionId[6..] else definitionId
  }

  function EventOf(blocks: seq<Block>, root: string): string {
    var b := Find(blocks, root);
    if b.None? then "" else EventType(b.value.definitionId)
  }

  function WithEvent(blocks: seq<Block>, roots: seq<string>, event: string): seq<string> {
    if roots == [] then []
    else
      var last := roots[|roots| - 1];
      var before := WithEvent(blocks, roots[..|roots| - 1], event);
      if EventOf(blocks, last) == event then before + [last] else before
  }

  /** The event types of the roots, each once, in order of first appearance. */
  function Events(blocks: seq<Block>, roots: seq<string>): seq<string> {
    if roots == [] then []
    else
      var n := |roots| - 1;
      var before := Events(blocks, roots[..n]);
      var event := EventOf(blocks, roots[n]);
      if event in before then before else before + [event]
  }

  function Duplicates(ids: seq<string>): seq<Diagnostic> {
    seq(|ids|, i requires 0 <= i < |ids| => DuplicateStart(ids[i]))
  }

  function DuplicateDiagnostics(blocks: seq<Block>, roots: seq<string>, events: seq<string>): seq<Diagnostic> {
    if events == [] then []
    else
      var ids := WithEvent(blocks, roots, events[|events| - 1]);
      var before := DuplicateDiagnostics(blocks, roots, events[..|events| - 1]);
      if |ids| > 1 then before + Duplicates(ids) else before
  }

  function Diagnostics(cat: Catalogue, d: Draft): seq<Diagnostic> {
    var roots := Roots(cat, d.blocks);
    TypeDiagnostics(cat, d.blocks, d.connections) + DuplicateDiagnostics(d.blocks, roots, Events(d.blocks, roots))
  }

  // ----- graphs -----

  predicate SlotFilled(cs: seq<Connection>, id: string, slot: Slot) {
    FindInput(cs, id, slot.name).Some?
  }

  /** Some block of the graph with a known definition has an empty slot. */
  predicate LacksInput(cat: Catalogue, d: Draft, ids: seq<string>) {
    exists i | 0 <= i < |ids| :: BlockLacksInput(cat, d, ids[i])
  }

  predicate BlockLacksInput(cat: Catalogue, d: Draft, id: string) {
    var def := DefinitionOf(cat, d.blocks, id);
    def.Some? && exists s | s in def.value.slots :: !SlotFilled(d.connections, id, s)
  }

  predicate HasExecution(cat: Catalogue, d: Draft, ids: seq<string>, e: Execution) {
    exists i | 0 <= i < |ids| :: BlockHasExecution(cat, d, ids[i], e)
  }

  predicate BlockHasExecution(cat: Catalogue, d: Draft, id: string, e: Execution) {
    var def := DefinitionOf(cat, d.blocks, id);
    def.Some? && def.value.execution == e
  }

  function GraphCapability(cat: Catalogue, d: Draft, ids: seq<string>): Capability {
    if LacksInput(cat, d, ids) then Incomplete
    else if HasExecution(cat, d, ids, DraftOnlyBlock) then DraftOnly
    else if HasExecution(cat, d, ids, NeedsContext) then Unsupported
    else Ready
  }

  function GraphOf(cat: Catalogue, d: Draft, g: Children, root: string): Graph {
    var ids := Visit(g, root, []);
    Graph(root, ids, GraphCapability(cat, d, ids))
  }

  function Graphs(cat: Catalogue, d: Draft, g: Children, roots: seq<string>): seq<Graph> {
    if roots == [] then []
    else Graphs(cat, d, g, roots[..|roots| - 1]) + [GraphOf(cat, d, g, roots[|roots| - 1])]
  }

  function Validated(cat: Catalogue, d: Draft, g: Children): Validation {
    Validation(Graphs(cat, d, g, Roots(cat, d.blocks)), Diagnostics(cat, d))
  }

  /** `validateActiveVisualGraphs`. */
  method Validate(cat: Catalogue, d: Draft) returns (v: Validation, g: Children)
    ensures IsChildMap(g, d.connections) && v == Validated(cat, d, g)
  {
    g := BuildChildren(d.connections);
    var mismatches := CollectMismatches(cat, d);
    var roots := CollectRoots(cat, d.blocks);
    var duplicates := CollectDuplicates(d.blocks, roots);
    var graphs := CollectGraphs(cat, d, g, roots);
    v := Validation(graphs, mismatches + duplicates);
  }

  method CollectMismatches(cat: Catalogue, d: Draft) returns (ds: seq<Diagnostic>)
    ensures ds == TypeDiagnostics(cat, d.blocks, d.connections)
  {
    var cs := d.connections;
    ds := [];
    for i := 0 to |cs|
      invariant ds == TypeDiagnostics(cat, d.blocks, cs[..i])
    {
      assert cs[..i + 1][..i] == cs[..i];
      var found := TypeDiagnostic(cat, d.blocks, cs[i]);
      ds := ds + found;
    }
    assert cs[..|cs|] == cs;
  }

  method CollectRoots(cat: Catalogue, blocks: seq<Block>) returns (roots: seq<string>)
    ensures roots == Roots(cat, blocks)
  {
    roots := [];
    for i := 0 to |blocks|
      invariant roots == Roots(cat, blocks[..i])
    {
      assert blocks[..i + 1][..i] == blocks[..i];
      if IsHat(cat, blocks[i]) {
        roots := roots + [blocks[i].id];
      }
    }
    assert blocks[..|blocks|] == blocks;
  }

  method CollectGraphs(cat: Catalogue, d: Draft, g: Children, roots: seq<string>) returns (graphs: seq<Graph>)
    ensures graphs == Graphs(cat, d, g, roots)
  {
    graphs := [];
    for i := 0 to |roots|
      invariant graphs == Graphs(cat, d, g, roots[..i])
    {
      assert roots[..i + 1][..i] == roots[..i];
      var walk := new Walk();
      walk.VisitFrom(g, roots[i]);
      graphs := graphs + [Graph(roots[i], walk.visited, GraphCapability(cat, d, walk.visited))];
    }
    assert roots[..|roots|] == roots;
  }

  ghost predicate IsGrouping(byEvent: Children, blocks: seq<Block>, roots: seq<string>) {
    forall e :: Kids(byEvent, e) == WithEvent(blocks, roots, e)
  }

  lemma GroupingStep(byEvent: Children, blocks: seq<Block>, roots: seq<string>, i: nat)
    requires i < |roots| && IsGrouping(byEvent, blocks, roots[..i])
    ensures IsGrouping(Grouped(byEvent, EventOf(blocks, roots[i]), roots[i]), blocks, roots[..i + 1])
  {
    var event := EventOf(blocks, roots[i]);
    var after := Grouped(byEvent, event, roots[i]);
    assert roots[..i + 1][..i] == roots[..i];
    forall e ensures Kids(after, e) == WithEvent(blocks, roots[..i + 1], e) {
      assert Kids(byEvent, e) == WithEvent(blocks, roots[..i], e);
    }
  }

  function Grouped(byEvent: Children, event: string, root: string): Children {
    byEvent[event := Kids(byEvent, event) + [root]]
  }

  /** The keys of byEvent, in insertion order. */
  ghost predicate IsOrder(order: seq<string>, byEvent: Children, events: seq<string>) {
    order == events && byEvent.Keys == Elements(order)
  }

  lemma OrderStep(order: seq<string>, byEvent: Children, blocks: seq<Block>, roots: seq<string>, i: nat)
    requires i < |roots| && IsOrder(order, byEvent, Events(blocks, roots[..i]))
    ensures
      var event := EventOf(blocks, roots[i]);
      IsOrder(if event in byEvent then order else order + [event], Grouped(byEvent, event, roots[i]),
              Events(blocks, roots[..i + 1]))
  {
    assert roots[..i + 1][..i] == roots[..i];
    var event := EventOf(blocks, roots[i]);
    assert event in byEvent <==> event in order;
    assert Grouped(byEvent, event, roots[i]).Keys == byEvent.Keys + {event};
  }

  /** Groups the roots by event type, as a map that remembers insertion order. */
  method GroupByEvent(blocks: seq<Block>, roots: seq<string>) returns (order: seq<string>, byEvent: Children)
    ensures order == Events(blocks, roots)
    ensures IsGrouping(byEvent, blocks, roots)
  {
    order, byEvent := [], map[];
    for i := 0 to |roots|
      invariant IsOrder(order, byEvent, Events(blocks, roots[..i]))
      invariant IsGrouping(byEvent, blocks, roots[..i])
    {
      GroupingStep(byEvent, blocks, roots, i);
      OrderStep(order, byEvent, blocks, roots, i);
      var event := EventOf(blocks, roots[i]);
      if event !in byEvent {
        order := order + [event];
      }
      byEvent := Grouped(byEvent, event, roots[i]);
    }
    assert roots[..|roots|] == roots;
  }

  lemma DiagnosticsStep(blocks: seq<Block>, roots: seq<string>, events: seq<string>, i: nat)
    requires i < |events|
    ensures
      var ids := WithEvent(blocks, roots, events[i]);
      var before := DuplicateDiagnostics(blocks, roots, events[..i]);
      DuplicateDiagnostics(blocks, roots, events[..i + 1]) == if |ids| > 1 then before + Duplicates(ids) else before
  {
    assert events[..i + 1][..i] == events[..i];
  }

  method CollectDuplicates(blocks: seq<Block>, roots: seq<string>) returns (ds: seq<Diagnostic>)
    ensures ds == DuplicateDiagnostics(blocks, roots, Events(blocks, roots))
  {
    var order, byEvent := GroupByEvent(blocks, roots);
    ds := [];
    for i := 0 to |order|
      invariant ds == DuplicateDiagnostics(blocks, roots, order[..i])
    {
      DiagnosticsStep(blocks, roots, order, i);
      var ids := Kids(byEvent, order[i]);
      assert ids == WithEvent(blocks, roots, order[i]);
      if |ids| > 1 {
        ds := ds + Duplicates(ids);
      }
    }
    assert order[..|order|] == order;
  }
}
