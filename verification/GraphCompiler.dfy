/** Compiling a validated visual graph into one authoring operation. */
module GraphCompiler {
  import opened Options
  import opened Traversal
  import opened VisualGraph

  datatype Timeframe = Daily | Monthly

  /** `commit_single_asset_intent`: rebalance to 100% of one asset on each close. */
  datatype Operation = CommitSingleAsset(asset: string, timeframe: Timeframe, rootId: string)

  datatype Outcome = Compiled | NotComplete | NotSupported | NotValid

  datatype Compilation = Compilation(outcome: Outcome, operation: Option<Operation>, rootId: Option<string>)

  /** The runtime's `Number` and `String` of a field value; NaN is None. */
  datatype Coercions = Coercions(toNumber: FieldValue -> Option<real>, toText: FieldValue -> string)

  function ChildAt(d: Draft, parent: string, input: string): Option<Block> {
    var c := FindInput(d.connections, parent, input);
    if c.None? then None else Find(d.blocks, c.value.childId)
  }

  /** A field, where a missing or null one reads as NullField. */
  function Field(b: Block, name: string): FieldValue {
    if name in b.fields then b.fields[name] else NullField
  }

  function Percent(co: Coercions, b: Block): Option<real> {
    var v := Field(b, "VALUE");
    if v == NullField then None else co.toNumber(v)
  }

  function AssetOf(co: Coercions, b: Block): string {
    if b.objectRef.Some? then b.objectRef.value
    else
      var v := Field(b, "REFERENCE");
      if v == NullField then "" else co.toText(v)
  }

  function TimeframeOf(b: Block): Option<Timeframe> {
    if b.definitionId == "start-daily" then Some(Daily)
    else if b.definitionId == "start-monthly" then Some(Monthly)
    else None
  }

  /** The supported shape: a Start, its action, the action's target and weight. */
  predicate Supported(co: Coercions, root: Block, action: Block, target: Block, weight: Block) {
    && TimeframeOf(root).Some?
    && action.definitionId == "rebalance"
    && target.definitionId == "asset-reference"
    && weight.definitionId == "percentage"
    && Percent(co, weight) == Some(100.0)
    && AssetOf(co, target) != ""
  }

  function CompileRoot(co: Coercions, d: Draft, rootId: string): Compilation {
    var unsupported := Compilation(NotSupported, None, Some(rootId));
    var root := Find(d.blocks, rootId);
    if root.None? then unsupported
    else
      var action := ChildAt(d, root.value.id, "NEXT");
      if action.None? then unsupported
      else
        var target, weight := ChildAt(d, action.value.id, "TARGET"), ChildAt(d, action.value.id, "WEIGHT");
        if target.None? || weight.None? || !Supported(co, root.value, action.value, target.value, weight.value)
        then unsupported
        else Compilation(Compiled,
                         Some(CommitSingleAsset(AssetOf(co, target.value), TimeframeOf(root.value).value, rootId)),
                         Some(rootId))
  }

  /** `compileActiveVisualGraph`. */
  function Compile(co: Coercions, d: Draft, v: Validation): Compilation {
    if v.diagnostics != [] then Compilation(NotValid, None, None)
    else if v.graphs == [] then Compilation(NotComplete, None, None)
    else if |v.graphs| > 1 then Compilation(NotSupported, None, None)
    else
      var g := v.graphs[0];
      if g.capability == Incomplete then Compilation(NotComplete, None, Some(g.rootId))
      else if g.capability != Ready then Compilation(NotSupported, None, Some(g.rootId))
      else CompileRoot(co, d, g.rootId)
  }

  // ----- when a draft is valid -----

  predicate DistinctEvents(blocks: seq<Block>, roots: seq<string>) {
    forall i, j | 0 <= i < j < |roots| :: EventOf(blocks, roots[i]) != EventOf(blocks, roots[j])
  }

  ghost predicate WellTyped(cat: Catalogue, blocks: seq<Block>, c: Connection) {
    !Mistyped(cat, blocks, c)
  }

  ghost predicate AllWellTyped(cat: Catalogue, blocks: seq<Block>, cs: seq<Connection>) {
    forall i | 0 <= i < |cs| :: WellTyped(cat, blocks, cs[i])
  }

  lemma {:induction false} FindNames(blocks: seq<Block>, id: string, b: Block)
    ensures Find(blocks, id) == Some(b) <==> Names(blocks, id, b)
  {
    if blocks != [] {
      if blocks[0].id == id {
        assert blocks[0] == b ==> Names(blocks, id, b);
      } else {
        FindNames(blocks[1..], id, b);
        NamesTail(blocks, id, b);
      }
    }
  }

  lemma NamesTail(blocks: seq<Block>, id: string, b: Block)
    requires blocks != [] && blocks[0].id != id
    ensures Names(blocks, id, b) <==> Names(blocks[1..], id, b)
  {
    var rest := blocks[1..];
    if Names(blocks, id, b) {
      var k :| 0 <= k < |blocks| && blocks[k] == b && b.id == id && forall i | 0 <= i < k :: blocks[i].id != id;
      assert rest[k - 1] == b;
    }
    if Names(rest, id, b) {
      var k :| 0 <= k < |rest| && rest[k] == b && b.id == id && forall i | 0 <= i < k :: rest[i].id != id;
      assert blocks[k + 1] == b;
      assert forall i | 0 < i < k + 1 :: blocks[i] == rest[i - 1];
    }
  }

  lemma DefinitionIff(cat: Catalogue, blocks: seq<Block>, id: string, def: Definition)
    ensures DefinitionOf(cat, blocks, id) == Some(def) <==> Defined(cat, blocks, id, def)
  {
    if DefinitionOf(cat, blocks, id) == Some(def) {
      FindNames(blocks, id, Find(blocks, id).value);
    }
    if b :| Names(blocks, id, b) && cat(b.definitionId) == Some(def) {
      FindNames(blocks, id, b);
    }
  }

  lemma {:induction false} FindSlotOffers(slots: seq<Slot>, name: string, slot: Slot)
    ensures FindSlot(slots, Some(name)) == Some(slot) <==> Offers(slots, name, slot)
  {
    if slots != [] {
      if slots[0].name == name {
        assert slots[0] == slot ==> Offers(slots, name, slot);
      } else {
        FindSlotOffers(slots[1..], name, slot);
        OffersTail(slots, name, slot);
      }
    }
  }

  lemma OffersTail(slots: seq<Slot>, name: string, slot: Slot)
    requires slots != [] && slots[0].name != name
    ensures Offers(slots, name, slot) <==> Offers(slots[1..], name, slot)
  {
    var rest := slots[1..];
    if Offers(slots, name, slot) {
      var k :| 0 <= k < |slots| && slots[k] == slot && slot.name == name
            && forall i | 0 <= i < k :: slots[i].name != name;
      assert rest[k - 1] == slot;
    }
    if Offers(rest, name, slot) {
      var k :| 0 <= k < |rest| && rest[k] == slot && slot.name == name
            && forall i | 0 <= i < k :: rest[i].name != name;
      assert slots[k + 1] == slot;
      assert forall i | 0 < i < k + 1 :: slots[i] == rest[i - 1];
    }
  }

  lemma {:induction false} NoInputNoSlot(slots: seq<Slot>)
    ensures FindSlot(slots, None) == None
  {
    if slots != [] {
      NoInputNoSlot(slots[1..]);
    }
  }

  /** `entryConnectionAccepts` decides what a slot may hold. */
  lemma AcceptsIff(accepted: seq<ValueType>, actual: ValueType)
    ensures Accepts(accepted, actual) <==> Fits(accepted, actual)
  {
    if Accepts(accepted, actual) {
      var named := if actual in accepted then actual
                   else if "AssetSet" in accepted && actual in ["Group", "Subgroup", "AssetSet"] then "AssetSet"
                   else "Value";
      var i :| 0 <= i < |accepted| && accepted[i] == named;
      assert StandsFor(accepted[i], actual);
    }
    if i :| 0 <= i < |accepted| && StandsFor(accepted[i], actual) {
      assert accepted[i] in accepted;
    }
  }

  /** One connection is reported, under its child, exactly when it is mistyped. */
  lemma TypeDiagnosticIff(cat: Catalogue, blocks: seq<Block>, c: Connection)
    ensures TypeDiagnostic(cat, blocks, c) == if Mistyped(cat, blocks, c) then [TypeMismatch(c.childId)] else []
  {
    if c.parentId.Some? && c.parentId.value != "" {
      if c.inputName.Some? {
        KnownDiagnostic(cat, blocks, c);
      } else {
        var parent := DefinitionOf(cat, blocks, c.parentId.value);
        if parent.Some? {
          NoInputNoSlot(parent.value.slots);
        }
      }
    }
  }

  lemma KnownDiagnostic(cat: Catalogue, blocks: seq<Block>, c: Connection)
    requires Attached(c) && c.inputName.Some?
    ensures TypeDiagnostic(cat, blocks, c) == if Mistyped(cat, blocks, c) then [TypeMismatch(c.childId)] else []
  {
    if parent, child, slot :| Misplaced(cat, blocks, c.parentId.value, parent, c.childId, child, c.inputName.value,
                                        slot) {
      DefinitionIff(cat, blocks, c.parentId.value, parent);
      DefinitionIff(cat, blocks, c.childId, child);
      FindSlotOffers(parent.slots, c.inputName.value, slot);
      if child.output.Some? {
        AcceptsIff(slot.accepts, child.output.value);
      }
    } else if TypeDiagnostic(cat, blocks, c) != [] {
      ReportedIsMisplaced(cat, blocks, c);
    }
  }

  lemma ReportedIsMisplaced(cat: Catalogue, blocks: seq<Block>, c: Connection)
    requires Attached(c) && c.inputName.Some? && TypeDiagnostic(cat, blocks, c) != []
    ensures Mistyped(cat, blocks, c)
  {
    var parent := DefinitionOf(cat, blocks, c.parentId.value).value;
    var child := DefinitionOf(cat, blocks, c.childId).value;
    var slot := FindSlot(parent.slots, c.inputName).value;
    DefinitionIff(cat, blocks, c.parentId.value, parent);
    DefinitionIff(cat, blocks, c.childId, child);
    FindSlotOffers(parent.slots, c.inputName.value, slot);
    if child.output.Some? {
      AcceptsIff(slot.accepts, child.output.value);
    }
    assert Misplaced(cat, blocks, c.parentId.value, parent, c.childId, child, c.inputName.value, slot);
  }

  lemma {:induction false} TypedIff(cat: Catalogue, blocks: seq<Block>, cs: seq<Connection>)
    ensures TypeDiagnostics(cat, blocks, cs) == [] <==> AllWellTyped(cat, blocks, cs)
  {
    if cs != [] {
      var init, last := cs[..|cs| - 1], cs[|cs| - 1];
      TypedIff(cat, blocks, init);
      TypeDiagnosticIff(cat, blocks, last);
      AllTypedStep(cat, blocks, cs);
      assert TypeDiagnostics(cat, blocks, cs) == TypeDiagnostics(cat, blocks, init) + TypeDiagnostic(cat, blocks, last);
    }
  }

  lemma AllTypedStep(cat: Catalogue, blocks: seq<Block>, cs: seq<Connection>)
    requires cs != []
    ensures AllWellTyped(cat, blocks, cs)
       <==> AllWellTyped(cat, blocks, cs[..|cs| - 1]) && WellTyped(cat, blocks, cs[|cs| - 1])
  {
    var init := cs[..|cs| - 1];
    assert forall i | 0 <= i < |init| :: init[i] == cs[i];
    if AllWellTyped(cat, blocks, cs) {
      forall i | 0 <= i < |init| ensures WellTyped(cat, blocks, init[i]) {
        assert WellTyped(cat, blocks, cs[i]);
      }
    }
  }

  lemma {:induction false} EventsComplete(blocks: seq<Block>, roots: seq<string>)
    ensures forall i | 0 <= i < |roots| :: EventOf(blocks, roots[i]) in Events(blocks, roots)
  {
    if roots != [] {
      EventsComplete(blocks, roots[..|roots| - 1]);
    }
  }

  lemma {:induction false} NoDuplicatesIff(blocks: seq<Block>, roots: seq<string>, events: seq<string>)
    ensures DuplicateDiagnostics(blocks, roots, events) == []
       <==> forall e | e in events :: AtMostOne(blocks, roots, e)
  {
    if events != [] {
      var init, last := events[..|events| - 1], events[|events| - 1];
      NoDuplicatesIff(blocks, roots, init);
      assert forall e :: e in events <==> e in init || e == last;
      assert |Duplicates(WithEvent(blocks, roots, last))| == |WithEvent(blocks, roots, last)|;
      assert DuplicateDiagnostics(blocks, roots, events) == []
        <==> DuplicateDiagnostics(blocks, roots, init) == [] && AtMostOne(blocks, roots, last);
    }
  }

  predicate AtMostOne(blocks: seq<Block>, roots: seq<string>, e: string) {
    |WithEvent(blocks, roots, e)| <= 1
  }

  lemma {:induction false} WithEventCount(blocks: seq<Block>, roots: seq<string>, e: string, i: nat, j: nat)
    requires i < j < |roots| && EventOf(blocks, roots[i]) == e && EventOf(blocks, roots[j]) == e
    ensures |WithEvent(blocks, roots, e)| >= 2
  {
    var init := roots[..|roots| - 1];
    if j < |init| {
      assert init[i] == roots[i] && init[j] == roots[j];
      WithEventCount(blocks, init, e, i, j);
    } else {
      assert init[i] == roots[i];
      WithEventSome(blocks, init, e, i);
    }
  }

  lemma {:induction false} WithEventSome(blocks: seq<Block>, roots: seq<string>, e: string, i: nat)
    requires i < |roots| && EventOf(blocks, roots[i]) == e
    ensures |WithEvent(blocks, roots, e)| >= 1
  {
    var init := roots[..|roots| - 1];
    if i < |init| {
      assert init[i] == roots[i];
      WithEventSome(blocks, init, e, i);
    }
  }

  lemma {:induction false} WithEventNone(blocks: seq<Block>, roots: seq<string>, e: string)
    requires forall i | 0 <= i < |roots| :: EventOf(blocks, roots[i]) != e
    ensures WithEvent(blocks, roots, e) == []
  {
    if roots != [] {
      WithEventNone(blocks, roots[..|roots| - 1], e);
    }
  }

  lemma {:induction false} WithEventAtMostOne(blocks: seq<Block>, roots: seq<string>, e: string)
    requires DistinctEvents(blocks, roots)
    ensures |WithEvent(blocks, roots, e)| <= 1
  {
    if roots != [] {
      var init := roots[..|roots| - 1];
      assert forall i | 0 <= i < |init| :: init[i] == roots[i];
      if EventOf(blocks, roots[|roots| - 1]) == e {
        WithEventNone(blocks, init, e);
      } else {
        WithEventAtMostOne(blocks, init, e);
      }
    }
  }

  /** A draft is valid exactly when every connection is well typed and no two
      Starts listen to the same event. */
  lemma ValidIff(cat: Catalogue, d: Draft)
    ensures Diagnostics(cat, d) == []
       <==> AllWellTyped(cat, d.blocks, d.connections) && DistinctEvents(d.blocks, Roots(cat, d.blocks))
  {
    var roots := Roots(cat, d.blocks);
    TypedIff(cat, d.blocks, d.connections);
    DistinctIff(d.blocks, roots);
  }

  lemma DistinctIff(blocks: seq<Block>, roots: seq<string>)
    ensures DuplicateDiagnostics(blocks, roots, Events(blocks, roots)) == [] <==> DistinctEvents(blocks, roots)
  {
    var events := Events(blocks, roots);
    NoDuplicatesIff(blocks, roots, events);
    EventsComplete(blocks, roots);
    if DistinctEvents(blocks, roots) {
      forall e | e in events ensures AtMostOne(blocks, roots, e) {
        WithEventAtMostOne(blocks, roots, e);
      }
    } else {
      var i, j :| 0 <= i < j < |roots| && EventOf(blocks, roots[i]) == EventOf(blocks, roots[j]);
      WithEventCount(blocks, roots, EventOf(blocks, roots[i]), i, j);
      assert EventOf(blocks, roots[i]) in events && !AtMostOne(blocks, roots, EventOf(blocks, roots[i]));
    }
  }

  // ----- the graphs of a draft -----

  /** How the canvas keeps its records: blocks and connections have unique keys,
      and a Start block is nobody's child. */
  ghost predicate WellKept(cat: Catalogue, d: Draft) {
    && (forall i, j | 0 <= i < j < |d.blocks| :: d.blocks[i].id != d.blocks[j].id)
    && DistinctChildren(d.connections)
    && (forall i, r | 0 <= i < |d.connections| && r in Roots(cat, d.blocks) :: d.connections[i].childId != r)
  }

  predicate DistinctChildren(cs: seq<Connection>) {
    forall i, j | 0 <= i < j < |cs| :: cs[i].childId != cs[j].childId
  }

  lemma {:induction false} ChildrenOfMember(cs: seq<Connection>, p: string, k: string)
    requires k in ChildrenOf(cs, p)
    ensures exists i :: 0 <= i < |cs| && cs[i].childId == k && cs[i].parentId == Some(p)
  {
    var n := |cs| - 1;
    if k in ChildrenOf(cs[..n], p) {
      ChildrenOfMember(cs[..n], p, k);
      var i :| 0 <= i < n && cs[..n][i].childId == k && cs[..n][i].parentId == Some(p);
      assert cs[i].childId == k;
    } else {
      assert cs[n].childId == k;
    }
  }

  lemma {:induction false} ChildrenDistinct(cs: seq<Connection>, p: string)
    requires DistinctChildren(cs)
    ensures NoDuplicates(ChildrenOf(cs, p))
  {
    if cs != [] {
      var n := |cs| - 1;
      var init := cs[..n];
      assert forall i | 0 <= i < n :: init[i] == cs[i];
      ChildrenDistinct(init, p);
      if cs[n].childId in ChildrenOf(init, p) {
        ChildrenOfMember(init, p, cs[n].childId);
      }
    }
  }

  lemma KeptIsForest(cat: Catalogue, d: Draft, g: Children)
    requires WellKept(cat, d) && IsChildMap(g, d.connections)
    ensures OneParent(g)
    ensures forall r | r in Roots(cat, d.blocks) :: Parentless(g, r)
  {
    forall p, q, k | k in Kids(g, p) && k in Kids(g, q) ensures p == q {
      SameParent(d.connections, p, q, k);
    }
    forall p ensures NoDuplicates(Kids(g, p)) {
      ChildrenDistinct(d.connections, p);
    }
    forall r, p | r in Roots(cat, d.blocks) ensures r !in Kids(g, p) {
      if r in Kids(g, p) {
        ChildrenOfMember(d.connections, p, r);
      }
    }
  }

  lemma SameParent(cs: seq<Connection>, p: string, q: string, k: string)
    requires DistinctChildren(cs) && k in ChildrenOf(cs, p) && k in ChildrenOf(cs, q)
    ensures p == q
  {
    ChildrenOfMember(cs, p, k);
    ChildrenOfMember(cs, q, k);
    var i :| 0 <= i < |cs| && cs[i].childId == k && cs[i].parentId == Some(p);
    var j :| 0 <= j < |cs| && cs[j].childId == k && cs[j].parentId == Some(q);
    assert i == j;
  }

  lemma {:induction false} GraphsAt(cat: Catalogue, d: Draft, g: Children, roots: seq<string>)
    ensures |Graphs(cat, d, g, roots)| == |roots|
    ensures forall i | 0 <= i < |roots| :: Graphs(cat, d, g, roots)[i] == GraphOf(cat, d, g, roots[i])
  {
    if roots != [] {
      GraphsAt(cat, d, g, roots[..|roots| - 1]);
    }
  }

  /** Each returned graph lists exactly the blocks reachable from its root, once
      each; the reachable part is a tree; and different graphs share no block. */
  lemma GraphsAreDisjointTrees(cat: Catalogue, d: Draft, g: Children, i: nat, j: nat, n: string)
    requires WellKept(cat, d) && IsChildMap(g, d.connections)
    requires
      var gs := Validated(cat, d, g).graphs;
      i < |gs| && j < |gs|
    ensures
      var gs := Validated(cat, d, g).graphs;
      && NoDuplicates(gs[i].blockIds)
      && (n in gs[i].blockIds <==> Reaches(g, gs[i].rootId, n))
      && (forall p, q | PathBetween(g, p, gs[i].rootId, n) && PathBetween(g, q, gs[i].rootId, n) :: p == q)
      && (gs[i].rootId != gs[j].rootId ==> !(n in gs[i].blockIds && n in gs[j].blockIds))
  {
    var roots := Roots(cat, d.blocks);
    GraphsAt(cat, d, g, roots);
    KeptIsForest(cat, d, g);
    VisitExact(g, roots[i]);
    if roots[i] != roots[j] {
      TreesDisjoint(g, roots[i], roots[j], n);
    }
    forall p, q | PathBetween(g, p, roots[i], n) && PathBetween(g, q, roots[i], n) ensures p == q {
      ReachedPartIsTree(g, roots[i], n, p, q);
    }
  }

  /** A returned graph lists its root, then what hangs below it in the order of the
      connections, each child followed by what hangs below that child. */
  lemma GraphsArePreorder(cat: Catalogue, d: Draft, g: Children, i: nat)
    requires WellKept(cat, d) && IsChildMap(g, d.connections) && i < |Roots(cat, d.blocks)|
    ensures |Validated(cat, d, g).graphs| == |Roots(cat, d.blocks)|
    ensures
      var graph := Validated(cat, d, g).graphs[i];
      && graph.rootId == Roots(cat, d.blocks)[i]
      && graph.blockIds == [graph.rootId] + Walks(g, ChildrenOf(d.connections, graph.rootId))
      && TreeBelow(g, graph.rootId)
  {
    var roots := Roots(cat, d.blocks);
    GraphsAt(cat, d, g, roots);
    KeptIsForest(cat, d, g);
    RootedTree(g, roots[i]);
    assert roots[i] in roots;
    assert Kids(g, roots[i]) == ChildrenOf(d.connections, roots[i]);
    WalkIsPreorder(g, roots[i]);
  }

  /** A graph is ready exactly when no reachable block with a known definition has
      an empty slot or an execution contract other than verified. */
  lemma ReadyIff(cat: Catalogue, d: Draft, g: Children, root: string)
    ensures GraphOf(cat, d, g, root).capability == Ready
       <==> forall n | Reaches(g, root, n) && DefinitionOf(cat, d.blocks, n).Some? ::
              !BlockLacksInput(cat, d, n) && BlockHasExecution(cat, d, n, Verified)
  {
    var ids := Visit(g, root, []);
    VisitExact(g, root);
    if GraphCapability(cat, d, ids) == Ready {
      forall n | Reaches(g, root, n) && DefinitionOf(cat, d.blocks, n).Some?
        ensures !BlockLacksInput(cat, d, n) && BlockHasExecution(cat, d, n, Verified)
      {
        var i :| 0 <= i < |ids| && ids[i] == n;
        assert !BlockLacksInput(cat, d, ids[i]);
        assert !BlockHasExecution(cat, d, ids[i], DraftOnlyBlock) && !BlockHasExecution(cat, d, ids[i], NeedsContext);
      }
    } else {
      var i :| 0 <= i < |ids| && (BlockLacksInput(cat, d, ids[i]) || BlockHasExecution(cat, d, ids[i], DraftOnlyBlock)
                                  || BlockHasExecution(cat, d, ids[i], NeedsContext));
      assert Reaches(g, root, ids[i]);
    }
  }

  // ----- disconnected fragments -----

  function KeptBlocks(blocks: seq<Block>, added: set<string>): seq<Block> {
    if blocks == [] then []
    else
      var last := blocks[|blocks| - 1];
      var before := KeptBlocks(blocks[..|blocks| - 1], added);
      if last.id in added then before else before + [last]
  }

  function KeptConnections(cs: seq<Connection>, added: set<string>): seq<Connection> {
    if cs == [] then []
    else
      var last := cs[|cs| - 1];
      var before := KeptConnections(cs[..|cs| - 1], added);
      if last.childId in added then before else before + [last]
  }

  /** d' is d with a disconnected fragment of added blocks: they are no Starts and
      are joined, well typed, only among themselves. */
  ghost predicate AddsFragment(cat: Catalogue, d: Draft, d': Draft, added: set<string>) {
    && d.blocks == KeptBlocks(d'.blocks, added)
    && d.connections == KeptConnections(d'.connections, added)
    && (forall b | b in d'.blocks && b.id in added :: !IsHat(cat, b))
    && (forall c | c in d'.connections && c.parentId.Some? :: c.parentId.value in added <==> c.childId in added)
    && (forall c | c in d'.connections && c.childId in added :: WellTyped(cat, d'.blocks, c))
  }

  lemma {:induction false} FindAppend(blocks: seq<Block>, b: Block, id: string)
    ensures Find(blocks + [b], id)
         == if Find(blocks, id).Some? then Find(blocks, id) else if b.id == id then Some(b) else None
  {
    if blocks == [] {
      assert blocks + [b] == [b];
    } else {
      assert (blocks + [b])[1..] == blocks[1..] + [b];
      FindAppend(blocks[1..], b, id);
    }
  }

  lemma {:induction false} FindKept(blocks: seq<Block>, added: set<string>, id: string)
    requires id !in added
    ensures Find(KeptBlocks(blocks, added), id) == Find(blocks, id)
  {
    if blocks != [] {
      var init, last := blocks[..|blocks| - 1], blocks[|blocks| - 1];
      FindKept(init, added, id);
      FindAppend(init, last, id);
      FindAppend(KeptBlocks(init, added), last, id);
      assert blocks == init + [last];
    }
  }

  lemma {:induction false} FindInputAppend(cs: seq<Connection>, c: Connection, p: string, input: string)
    ensures FindInput(cs + [c], p, input)
         == if FindInput(cs, p, input).Some? then FindInput(cs, p, input)
            else if c.parentId == Some(p) && c.inputName == Some(input) then Some(c) else None
  {
    if cs == [] {
      assert cs + [c] == [c];
    } else {
      assert (cs + [c])[1..] == cs[1..] + [c];
      FindInputAppend(cs[1..], c, p, input);
    }
  }

  /** Added connections have added parents, and the others do not. */
  ghost predicate Separated(cs: seq<Connection>, added: set<string>) {
    forall c | c in cs && c.parentId.Some? :: c.parentId.value in added <==> c.childId in added
  }

  lemma {:induction false} FindInputKept(cs: seq<Connection>, added: set<string>, p: string, input: string)
    requires p !in added && Separated(cs, added)
    ensures FindInput(KeptConnections(cs, added), p, input) == FindInput(cs, p, input)
  {
    if cs != [] {
      var init, last := cs[..|cs| - 1], cs[|cs| - 1];
      assert last in cs && forall c | c in init :: c in cs;
      FindInputKept(init, added, p, input);
      FindInputAppend(init, last, p, input);
      FindInputAppend(KeptConnections(init, added), last, p, input);
      assert cs == init + [last];
    }
  }

  lemma {:induction false} ChildrenKept(cs: seq<Connection>, added: set<string>, p: string)
    requires p !in added && Separated(cs, added)
    ensures ChildrenOf(KeptConnections(cs, added), p) == ChildrenOf(cs, p)
    ensures forall k | k in ChildrenOf(cs, p) :: k !in added
  {
    if cs != [] {
      var init, last := cs[..|cs| - 1], cs[|cs| - 1];
      assert last in cs && forall c | c in init :: c in cs;
      ChildrenKept(init, added, p);
      var kept := KeptConnections(init, added);
      if last.childId !in added {
        assert (kept + [last])[..|kept|] == kept;
      }
    }
  }

  lemma {:induction false} RootsKept(cat: Catalogue, blocks: seq<Block>, added: set<string>)
    requires forall b | b in blocks && b.id in added :: !IsHat(cat, b)
    ensures Roots(cat, KeptBlocks(blocks, added)) == Roots(cat, blocks)
    ensures forall r | r in Roots(cat, blocks) :: r !in added
  {
    if blocks != [] {
      var init, last := blocks[..|blocks| - 1], blocks[|blocks| - 1];
      assert last in blocks && forall b | b in init :: b in blocks;
      RootsKept(cat, init, added);
      var kept := KeptBlocks(init, added);
      if last.id !in added {
        assert (kept + [last])[..|kept|] == kept;
      }
    }
  }

  lemma DiagnosticKept(cat: Catalogue, blocks: seq<Block>, added: set<string>, c: Connection)
    requires c.childId !in added && (c.parentId.Some? ==> c.parentId.value !in added)
    ensures TypeDiagnostic(cat, KeptBlocks(blocks, added), c) == TypeDiagnostic(cat, blocks, c)
  {
    FindKept(blocks, added, c.childId);
    if c.parentId.Some? {
      FindKept(blocks, added, c.parentId.value);
    }
  }

  lemma {:induction false} MismatchesKept(cat: Catalogue, blocks: seq<Block>, cs: seq<Connection>, added: set<string>)
    requires Separated(cs, added)
    requires forall c | c in cs && c.childId in added :: WellTyped(cat, blocks, c)
    ensures TypeDiagnostics(cat, KeptBlocks(blocks, added), KeptConnections(cs, added))
        == TypeDiagnostics(cat, blocks, cs)
  {
    if cs != [] {
      var init, last := cs[..|cs| - 1], cs[|cs| - 1];
      assert last in cs && forall c | c in init :: c in cs;
      MismatchesKept(cat, blocks, init, added);
      var kept := KeptConnections(init, added);
      if last.childId in added {
        assert WellTyped(cat, blocks, last);
        TypeDiagnosticIff(cat, blocks, last);
      } else {
        DiagnosticKept(cat, blocks, added, last);
        assert (kept + [last])[..|kept|] == kept;
      }
    }
  }

  /** Two block lists that find the same blocks for the roots group them alike. */
  ghost predicate SameEvents(b1: seq<Block>, b2: seq<Block>, roots: seq<string>) {
    forall r | r in roots :: EventOf(b1, r) == EventOf(b2, r)
  }

  lemma {:induction false} WithEventSame(b1: seq<Block>, b2: seq<Block>, roots: seq<string>, e: string)
    requires SameEvents(b1, b2, roots)
    ensures WithEvent(b1, roots, e) == WithEvent(b2, roots, e)
  {
    if roots != [] {
      assert roots[|roots| - 1] in roots && forall r | r in roots[..|roots| - 1] :: r in roots;
      WithEventSame(b1, b2, roots[..|roots| - 1], e);
    }
  }

  lemma {:induction false} EventsSame(b1: seq<Block>, b2: seq<Block>, roots: seq<string>)
    requires SameEvents(b1, b2, roots)
    ensures Events(b1, roots) == Events(b2, roots)
  {
    if roots != [] {
      assert roots[|roots| - 1] in roots && forall r | r in roots[..|roots| - 1] :: r in roots;
      EventsSame(b1, b2, roots[..|roots| - 1]);
    }
  }

  lemma {:induction false} DuplicatesSame(b1: seq<Block>, b2: seq<Block>, roots: seq<string>, events: seq<string>)
    requires SameEvents(b1, b2, roots)
    ensures DuplicateDiagnostics(b1, roots, events) == DuplicateDiagnostics(b2, roots, events)
  {
    if events != [] {
      DuplicatesSame(b1, b2, roots, events[..|events| - 1]);
      WithEventSame(b1, b2, roots, events[|events| - 1]);
    }
  }

  lemma FragmentKeepsDiagnostics(cat: Catalogue, d: Draft, d': Draft, added: set<string>)
    requires AddsFragment(cat, d, d', added)
    ensures Diagnostics(cat, d') == Diagnostics(cat, d)
  {
    var roots := Roots(cat, d'.blocks);
    RootsKept(cat, d'.blocks, added);
    MismatchesKept(cat, d'.blocks, d'.connections, added);
    forall r | r in roots ensures EventOf(d'.blocks, r) == EventOf(d.blocks, r) {
      FindKept(d'.blocks, added, r);
    }
    EventsSame(d'.blocks, d.blocks, roots);
    DuplicatesSame(d'.blocks, d.blocks, roots, Events(d.blocks, roots));
  }

  lemma FragmentKeepsBlock(cat: Catalogue, d: Draft, d': Draft, added: set<string>, id: string, e: Execution)
    requires AddsFragment(cat, d, d', added) && id !in added
    ensures BlockLacksInput(cat, d', id) <==> BlockLacksInput(cat, d, id)
    ensures BlockHasExecution(cat, d', id, e) <==> BlockHasExecution(cat, d, id, e)
  {
    FindKept(d'.blocks, added, id);
    var def := DefinitionOf(cat, d.blocks, id);
    if def.Some? {
      forall s | s in def.value.slots ensures SlotFilled(d'.connections, id, s) <==> SlotFilled(d.connections, id, s) {
        FindInputKept(d'.connections, added, id, s.name);
      }
    }
  }

  lemma FragmentKeepsGraph(cat: Catalogue, d: Draft, d': Draft, g: Children, g': Children, added: set<string>,
                           root: string)
    requires AddsFragment(cat, d, d', added) && IsChildMap(g, d.connections) && IsChildMap(g', d'.connections)
    requires root !in added
    ensures GraphOf(cat, d', g', root) == GraphOf(cat, d, g, root)
  {
    forall n | n !in added
        ensures Kids(g', n) == Kids(g, n) && (n in g <==> n in g') && forall k | k in Kids(g, n) :: k !in added {
      ChildrenKept(d'.connections, added, n);
    }
    VisitLocal(g, g', root, [], added);
    var ids := Visit(g, root, []);
    forall i | 0 <= i < |ids| ensures ids[i] !in added {
      VisitStaysOutside(g, root, added, ids[i]);
    }
    forall i, e | 0 <= i < |ids|
      ensures BlockLacksInput(cat, d', ids[i]) <==> BlockLacksInput(cat, d, ids[i])
      ensures BlockHasExecution(cat, d', ids[i], e) <==> BlockHasExecution(cat, d, ids[i], e)
    {
      FragmentKeepsBlock(cat, d, d', added, ids[i], e);
    }
  }

  lemma VisitStaysOutside(g: Children, root: string, added: set<string>, n: string)
    requires root !in added && (forall m, k | m !in added && k in Kids(g, m) :: k !in added)
    requires n in Visit(g, root, [])
    ensures n !in added
  {
    VisitExact(g, root);
    var p :| PathBetween(g, p, root, n);
    PathStaysOutside(g, p, added);
  }

  lemma {:induction false} PathStaysOutside(g: Children, p: seq<string>, added: set<string>)
    requires IsPath(g, p) && p[0] !in added && (forall m, k | m !in added && k in Kids(g, m) :: k !in added)
    ensures p[|p| - 1] !in added
    decreases |p|
  {
    if |p| > 1 {
      assert p[1] in Kids(g, p[0]);
      PathStaysOutside(g, p[1..], added);
    }
  }

  /** A disconnected fragment of further blocks never changes what a draft
      validates to, nor what it compiles to. */
  lemma FragmentInvisible(cat: Catalogue, co: Coercions, d: Draft, d': Draft, g: Children, g': Children,
                          added: set<string>)
    requires AddsFragment(cat, d, d', added) && IsChildMap(g, d.connections) && IsChildMap(g', d'.connections)
    ensures Validated(cat, d', g') == Validated(cat, d, g)
    ensures Compile(co, d', Validated(cat, d', g')) == Compile(co, d, Validated(cat, d, g))
  {
    FragmentKeepsGraphs(cat, d, d', g, g', added);
    FragmentKeepsDiagnostics(cat, d, d', added);
    var v := Validated(cat, d, g);
    if |v.graphs| == 1 {
      FragmentKeepsCompile(cat, co, d, d', added, v.graphs[0].rootId);
    }
  }

  lemma FragmentKeepsGraphs(cat: Catalogue, d: Draft, d': Draft, g: Children, g': Children, added: set<string>)
    requires AddsFragment(cat, d, d', added) && IsChildMap(g, d.connections) && IsChildMap(g', d'.connections)
    ensures Validated(cat, d', g').graphs == Validated(cat, d, g).graphs
    ensures forall i | 0 <= i < |Validated(cat, d, g).graphs| :: Validated(cat, d, g).graphs[i].rootId !in added
  {
    var roots := Roots(cat, d.blocks);
    RootsKept(cat, d'.blocks, added);
    GraphsAt(cat, d, g, roots);
    GraphsAt(cat, d', g', roots);
    forall i | 0 <= i < |roots| ensures GraphOf(cat, d', g', roots[i]) == GraphOf(cat, d, g, roots[i]) {
      FragmentKeepsGraph(cat, d, d', g, g', added, roots[i]);
    }
  }

  lemma FragmentKeepsChild(cat: Catalogue, d: Draft, d': Draft, added: set<string>, parent: string, input: string)
    requires AddsFragment(cat, d, d', added) && parent !in added
    ensures ChildAt(d', parent, input) == ChildAt(d, parent, input)
    ensures ChildAt(d, parent, input).Some? ==> ChildAt(d, parent, input).value.id !in added
  {
    FindInputKept(d'.connections, added, parent, input);
    var c := FindInput(d'.connections, parent, input);
    if c.Some? {
      assert c.value in d'.connections && c.value.childId !in added;
      FindKept(d'.blocks, added, c.value.childId);
    }
  }

  lemma FragmentKeepsCompile(cat: Catalogue, co: Coercions, d: Draft, d': Draft, added: set<string>, root: string)
    requires AddsFragment(cat, d, d', added) && root !in added
    ensures CompileRoot(co, d', root) == CompileRoot(co, d, root)
  {
    FindKept(d'.blocks, added, root);
    FragmentKeepsChild(cat, d, d', added, root, "NEXT");
    var action := ChildAt(d, root, "NEXT");
    if action.Some? {
      FragmentKeepsChild(cat, d, d', added, action.value.id, "TARGET");
      FragmentKeepsChild(cat, d, d', added, action.value.id, "WEIGHT");
    }
  }

  // ----- meaning -----

  datatype Action = Rebalance(asset: string, percent: Option<real>) | OtherAction(definitionId: string)

  /** What a graph or an operation does: the actions, in order, on each close. */
  datatype Program = Program(timeframe: Option<Timeframe>, actions: seq<Action>)

  function OperationProgram(op: Operation): Program {
    Program(Some(op.timeframe), [Rebalance(op.asset, Some(100.0))])
  }

  function ActionOf(co: Coercions, d: Draft, b: Block): Action {
    if b.definitionId == "rebalance" then
      var target, weight := ChildAt(d, b.id, "TARGET"), ChildAt(d, b.id, "WEIGHT");
      Rebalance(if target.None? then "" else AssetOf(co, target.value),
                if weight.None? then None else Percent(co, weight.value))
    else OtherAction(b.definitionId)
  }

  /** The actions chained through NEXT from b on, at most `limit` of them. */
  function Chain(co: Coercions, d: Draft, b: Option<Block>, limit: nat): seq<Action>
    decreases limit
  {
    if b.None? || limit == 0 then []
    else [ActionOf(co, d, b.value)] + Chain(co, d, ChildAt(d, b.value.id, "NEXT"), limit - 1)
  }

  /** The program a graph draws: its Start and its chain, which visits no more
      blocks than there are. */
  function GraphProgram(co: Coercions, d: Draft, root: Block): Program {
    Program(TimeframeOf(root), Chain(co, d, ChildAt(d, root.id, "NEXT"), |d.blocks|))
  }

  /** A compiled operation means what its graph draws if and only if nothing is
      chained after the rebalance: the compiler drops every further action. */
  lemma CompiledMeaningIff(co: Coercions, d: Draft, rootId: string)
    requires CompileRoot(co, d, rootId).outcome == Compiled
    ensures
      var root := Find(d.blocks, rootId).value;
      var action := ChildAt(d, root.id, "NEXT").value;
      ChildAt(d, action.id, "NEXT") == None <==>
      OperationProgram(CompileRoot(co, d, rootId).operation.value) == GraphProgram(co, d, root)
  {
    var root := Find(d.blocks, rootId).value;
    var action := ChildAt(d, root.id, "NEXT").value;
    var next := ChildAt(d, action.id, "NEXT");
    assert root in d.blocks && action in d.blocks;
    StartIsNoAction(root, action);
    TwoBlocks(d.blocks, root, action);
    ChainStep(co, d, action, |d.blocks|);
    var rest := Chain(co, d, next, |d.blocks| - 1);
    assert GraphProgram(co, d, root).actions == [ActionOf(co, d, action)] + rest;
  }

  lemma ChainStep(co: Coercions, d: Draft, action: Block, fuel: nat)
    requires fuel >= 2
    ensures Chain(co, d, Some(action), fuel)
        == [ActionOf(co, d, action)] + Chain(co, d, ChildAt(d, action.id, "NEXT"), fuel - 1)
    ensures Chain(co, d, ChildAt(d, action.id, "NEXT"), fuel - 1) == [] <==> ChildAt(d, action.id, "NEXT") == None
  {
  }

  lemma StartIsNoAction(root: Block, action: Block)
    requires TimeframeOf(root).Some? && action.definitionId == "rebalance"
    ensures root != action
  {
    assert "rebalance"[0] == 'r' && "start-daily"[0] == 's' && "start-monthly"[0] == 's';
  }

  lemma TwoBlocks(blocks: seq<Block>, a: Block, b: Block)
    requires a in blocks && b in blocks && a != b
    ensures |blocks| >= 2
  {
  }

  /** On a well-kept draft of exactly the four blocks of the supported shape,
      compiling preserves the meaning. */
  lemma FourBlockMeaning(cat: Catalogue, co: Coercions, d: Draft, rootId: string)
    requires WellKept(cat, d) && rootId in Roots(cat, d.blocks) && |d.blocks| == 4
    requires CompileRoot(co, d, rootId).outcome == Compiled
    ensures OperationProgram(CompileRoot(co, d, rootId).operation.value)
         == GraphProgram(co, d, Find(d.blocks, rootId).value)
  {
    var root := Find(d.blocks, rootId).value;
    var action := ChildAt(d, root.id, "NEXT").value;
    FourBlocksNoNext(cat, co, d, rootId);
    CompiledMeaningIff(co, d, rootId);
  }

  lemma FourBlocksNoNext(cat: Catalogue, co: Coercions, d: Draft, rootId: string)
    requires WellKept(cat, d) && rootId in Roots(cat, d.blocks) && |d.blocks| == 4
    requires CompileRoot(co, d, rootId).outcome == Compiled
    ensures ChildAt(d, ChildAt(d, rootId, "NEXT").value.id, "NEXT") == None
  {
    var action := ChildAt(d, rootId, "NEXT").value;
    var target, weight := ChildAt(d, action.id, "TARGET").value, ChildAt(d, action.id, "WEIGHT").value;
    var next := ChildAt(d, action.id, "NEXT");
    if next.Some? {
      InputNamesDiffer();
      ChildConnection(d, rootId, "NEXT");
      ChildConnection(d, action.id, "TARGET");
      ChildConnection(d, action.id, "WEIGHT");
      ChildConnection(d, action.id, "NEXT");
      var ca, ct := FindInput(d.connections, rootId, "NEXT").value, FindInput(d.connections, action.id, "TARGET").value;
      var cw, cn := FindInput(d.connections, action.id, "WEIGHT").value,
          FindInput(d.connections, action.id, "NEXT").value;
      RootIsNoChild(cat, d, rootId, ca);
      RootIsNoChild(cat, d, rootId, ct);
      RootIsNoChild(cat, d, rootId, cw);
      RootIsNoChild(cat, d, rootId, cn);
      OneConnection(cat, d, ca, ct);
      OneConnection(cat, d, ca, cw);
      OneConnection(cat, d, ca, cn);
      OneConnection(cat, d, ct, cw);
      OneConnection(cat, d, ct, cn);
      OneConnection(cat, d, cw, cn);
      FiveIds(d.blocks, rootId, action.id, target.id, weight.id, next.value.id);
    }
  }

  lemma ChildConnection(d: Draft, parent: string, input: string)
    requires ChildAt(d, parent, input).Some?
    ensures FindInput(d.connections, parent, input).Some?
    ensures FindInput(d.connections, parent, input).value.childId == ChildAt(d, parent, input).value.id
    ensures ChildAt(d, parent, input).value in d.blocks
  {
  }

  lemma RootIsNoChild(cat: Catalogue, d: Draft, root: string, c: Connection)
    requires WellKept(cat, d) && root in Roots(cat, d.blocks) && c in d.connections
    ensures c.childId != root
  {
    var i :| 0 <= i < |d.connections| && d.connections[i] == c;
    assert d.connections[i].childId != root;
  }

  lemma OneConnection(cat: Catalogue, d: Draft, a: Connection, b: Connection)
    requires WellKept(cat, d) && a in d.connections && b in d.connections && a != b
    ensures a.childId != b.childId
  {
    var i :| 0 <= i < |d.connections| && d.connections[i] == a;
    var j :| 0 <= j < |d.connections| && d.connections[j] == b;
    if i < j {
      assert d.connections[i].childId != d.connections[j].childId;
    } else {
      assert d.connections[j].childId != d.connections[i].childId;
    }
  }

  function Ids(blocks: seq<Block>): set<string> {
    set b | b in blocks :: b.id
  }

  lemma {:induction false} FewIds(blocks: seq<Block>)
    ensures |Ids(blocks)| <= |blocks|
  {
    if blocks != [] {
      FewIds(blocks[1..]);
      assert Ids(blocks) == Ids(blocks[1..]) + {blocks[0].id};
    }
  }

  /** Four blocks do not carry five different ids. */
  lemma FiveIds(blocks: seq<Block>, a: string, b: string, c: string, d: string, e: string)
    requires a in Ids(blocks) && b in Ids(blocks) && c in Ids(blocks) && d in Ids(blocks) && e in Ids(blocks)
    requires a != b && a != c && a != d && a != e && b != c && b != d && b != e && c != d && c != e && d != e
    ensures |blocks| >= 5
  {
    FewIds(blocks);
    var five := {a, b, c, d, e};
    assert |five| == 5;
    SubsetSize(five, Ids(blocks));
  }

  lemma InputNamesDiffer()
    ensures "NEXT" != "TARGET" && "NEXT" != "WEIGHT" && "TARGET" != "WEIGHT"
  {
    assert "NEXT"[0] == 'N' && "TARGET"[0] == 'T' && "WEIGHT"[0] == 'W';
  }
}
