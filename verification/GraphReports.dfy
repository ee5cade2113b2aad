/** What the validator and the compiler report about a draft, in terms of its
    blocks and connections. */
module GraphReports {
  import opened Options
  import opened Traversal
  import opened VisualGraph
  import opened GraphCompiler

  // ----- diagnostics -----

  lemma {:induction false} MismatchIn(cat: Catalogue, blocks: seq<Block>, cs: seq<Connection>, ds: Diagnostic)
    ensures ds in TypeDiagnostics(cat, blocks, cs)
       <==> exists c :: c in cs && ds == TypeMismatch(c.childId) && Mistyped(cat, blocks, c)
  {
    if cs != [] {
      var init, last := cs[..|cs| - 1], cs[|cs| - 1];
      MismatchIn(cat, blocks, init, ds);
      TypeDiagnosticIff(cat, blocks, last);
      assert forall c :: c in cs <==> c in init || c == last;
    }
  }

  /** The events of the Starts named in roots, as far as two of them share one. */
  ghost predicate SharesStart(blocks: seq<Block>, roots: seq<string>, id: string) {
    exists i, j :: 0 <= i < |roots| && 0 <= j < |roots| && i != j && roots[i] == id
                && EventOf(blocks, roots[i]) == EventOf(blocks, roots[j])
  }

  lemma {:induction false} WithEventIn(blocks: seq<Block>, roots: seq<string>, e: string, id: string)
    ensures id in WithEvent(blocks, roots, e) <==> id in roots && EventOf(blocks, id) == e
  {
    if roots != [] {
      WithEventIn(blocks, roots[..|roots| - 1], e, id);
      assert roots == roots[..|roots| - 1] + [roots[|roots| - 1]];
    }
  }

  /** The Start id is one of several with event e. */
  predicate OneOfSeveral(blocks: seq<Block>, roots: seq<string>, e: string, id: string) {
    id in WithEvent(blocks, roots, e) && |WithEvent(blocks, roots, e)| > 1
  }

  lemma DuplicatesIn(ids: seq<string>, ds: Diagnostic)
    ensures ds in Duplicates(ids) <==> ds.DuplicateStart? && ds.blockId in ids
  {
    if ds.DuplicateStart? && ds.blockId in ids {
      var i :| 0 <= i < |ids| && ids[i] == ds.blockId;
      assert Duplicates(ids)[i] == ds;
    }
    if ds in Duplicates(ids) {
      var i :| 0 <= i < |ids| && Duplicates(ids)[i] == ds;
      assert ids[i] == ds.blockId;
    }
  }

  ghost predicate Several(blocks: seq<Block>, roots: seq<string>, events: seq<string>, id: string) {
    exists i :: 0 <= i < |events| && OneOfSeveral(blocks, roots, events[i], id)
  }

  lemma SeveralStep(blocks: seq<Block>, roots: seq<string>, events: seq<string>, id: string)
    requires events != []
    ensures Several(blocks, roots, events, id)
       <==> Several(blocks, roots, events[..|events| - 1], id)
            || OneOfSeveral(blocks, roots, events[|events| - 1], id)
  {
    var init := events[..|events| - 1];
    assert forall i | 0 <= i < |init| :: init[i] == events[i];
    if Several(blocks, roots, init, id) {
      var i :| 0 <= i < |init| && OneOfSeveral(blocks, roots, init[i], id);
      assert OneOfSeveral(blocks, roots, events[i], id);
    }
    if i :| 0 <= i < |events| && OneOfSeveral(blocks, roots, events[i], id) {
      assert i < |init| ==> OneOfSeveral(blocks, roots, init[i], id);
    }
  }

  lemma {:induction false} DuplicateIn(blocks: seq<Block>, roots: seq<string>, events: seq<string>, ds: Diagnostic)
    ensures ds in DuplicateDiagnostics(blocks, roots, events)
       <==> ds.DuplicateStart? && Several(blocks, roots, events, ds.blockId)
  {
    if events != [] {
      var init, last := events[..|events| - 1], events[|events| - 1];
      DuplicateIn(blocks, roots, init, ds);
      DuplicatesIn(WithEvent(blocks, roots, last), ds);
      if ds.DuplicateStart? {
        SeveralStep(blocks, roots, events, ds.blockId);
      }
    }
  }

  lemma {:induction false} TwoWithEvent(blocks: seq<Block>, roots: seq<string>, e: string)
    requires |WithEvent(blocks, roots, e)| > 1
    ensures exists i, j :: 0 <= i < j < |roots| && EventOf(blocks, roots[i]) == e && EventOf(blocks, roots[j]) == e
  {
    var init, n := roots[..|roots| - 1], |roots| - 1;
    if EventOf(blocks, roots[n]) == e {
      var ids := WithEvent(blocks, init, e);
      WithEventIn(blocks, init, e, ids[0]);
      var i :| 0 <= i < |init| && init[i] == ids[0];
      assert EventOf(blocks, roots[i]) == e;
    } else {
      TwoWithEvent(blocks, init, e);
      var i, j :| 0 <= i < j < |init| && EventOf(blocks, init[i]) == e && EventOf(blocks, init[j]) == e;
      assert EventOf(blocks, roots[i]) == e && EventOf(blocks, roots[j]) == e;
    }
  }

  /** The other Start of the event. */
  lemma OtherStart(blocks: seq<Block>, roots: seq<string>, e: string, id: string)
    requires id in WithEvent(blocks, roots, e) && |WithEvent(blocks, roots, e)| > 1
    ensures SharesStart(blocks, roots, id)
  {
    WithEventIn(blocks, roots, e, id);
    TwoWithEvent(blocks, roots, e);
    var i, j :| 0 <= i < j < |roots| && EventOf(blocks, roots[i]) == e && EventOf(blocks, roots[j]) == e;
    var k :| 0 <= k < |roots| && roots[k] == id;
    var other := if k == i then j else i;
    assert EventOf(blocks, roots[k]) == EventOf(blocks, roots[other]) && k != other;
  }

  lemma SharedIsReported(blocks: seq<Block>, roots: seq<string>, id: string)
    requires SharesStart(blocks, roots, id)
    ensures DuplicateStart(id) in DuplicateDiagnostics(blocks, roots, Events(blocks, roots))
  {
    var i, j :| 0 <= i < |roots| && 0 <= j < |roots| && i != j && roots[i] == id
             && EventOf(blocks, roots[i]) == EventOf(blocks, roots[j]);
    var e := EventOf(blocks, roots[i]);
    EventsComplete(blocks, roots);
    WithEventIn(blocks, roots, e, id);
    if i < j {
      WithEventCount(blocks, roots, e, i, j);
    } else {
      WithEventCount(blocks, roots, e, j, i);
    }
    var k :| 0 <= k < |Events(blocks, roots)| && Events(blocks, roots)[k] == e;
    assert OneOfSeveral(blocks, roots, Events(blocks, roots)[k], id);
    DuplicateIn(blocks, roots, Events(blocks, roots), DuplicateStart(id));
  }

  /** A type mismatch is reported for a block if and only if some connection puts that
      block, whose definition is known, into a slot of a block with a known definition
      which does not take it. */
  lemma MismatchReportedIff(cat: Catalogue, d: Draft, id: string)
    ensures TypeMismatch(id) in Diagnostics(cat, d)
       <==> exists c :: c in d.connections && c.childId == id && Mistyped(cat, d.blocks, c)
  {
    var roots := Roots(cat, d.blocks);
    MismatchIn(cat, d.blocks, d.connections, TypeMismatch(id));
    DuplicateIn(d.blocks, roots, Events(d.blocks, roots), TypeMismatch(id));
  }

  /** A Start is reported as a duplicate if and only if another Start has its event. */
  lemma DuplicateReportedIff(cat: Catalogue, d: Draft, id: string)
    ensures DuplicateStart(id) in Diagnostics(cat, d) <==> SharesStart(d.blocks, Roots(cat, d.blocks), id)
  {
    var roots := Roots(cat, d.blocks);
    MismatchIn(cat, d.blocks, d.connections, DuplicateStart(id));
    DuplicateIn(d.blocks, roots, Events(d.blocks, roots), DuplicateStart(id));
    if SharesStart(d.blocks, roots, id) {
      SharedIsReported(d.blocks, roots, id);
    }
    var events := Events(d.blocks, roots);
    if i :| 0 <= i < |events| && OneOfSeveral(d.blocks, roots, events[i], id) {
      OtherStart(d.blocks, roots, events[i], id);
    }
  }

  /** The Starts are the blocks whose definition has the shape of a hat, in their order. */
  lemma {:induction false} StartsIff(cat: Catalogue, blocks: seq<Block>, id: string)
    ensures id in Roots(cat, blocks)
       <==> exists b, def :: b in blocks && b.id == id && cat(b.definitionId) == Some(def) && def.shape == Hat
  {
    if blocks != [] {
      var init, last := blocks[..|blocks| - 1], blocks[|blocks| - 1];
      StartsIff(cat, init, id);
      assert forall b :: b in blocks <==> b in init || b == last;
    }
  }

  /** Two Starts have the same event exactly when their kinds are equal up to the
      prefix; a kind without the prefix is its own event. */
  lemma EventOfStart(blocks: seq<Block>, id: string, b: Block, event: string)
    requires Names(blocks, id, b)
    ensures b.definitionId == "start-" + event ==> EventOf(blocks, id) == event
    ensures !("start-" <= b.definitionId) ==> EventOf(blocks, id) == b.definitionId
  {
    FindNames(blocks, id, b);
    assert ("start-" + event)[6..] == event;
  }

  // ----- capabilities -----

  /** Block id has a known definition with a slot that no connection fills. */
  ghost predicate HasEmptySlot(cat: Catalogue, d: Draft, id: string) {
    exists def, slot :: Defined(cat, d.blocks, id, def) && slot in def.slots && Unfilled(d.connections, id, slot.name)
  }

  predicate Unfilled(cs: seq<Connection>, id: string, input: string) {
    forall i | 0 <= i < |cs| :: !Enters(cs[i], id, input)
  }

  ghost predicate HasContract(cat: Catalogue, d: Draft, id: string, e: Execution) {
    exists def :: Defined(cat, d.blocks, id, def) && def.execution == e
  }

  lemma {:induction false} FilledIff(cs: seq<Connection>, id: string, input: string)
    ensures FindInput(cs, id, input) == None <==> Unfilled(cs, id, input)
  {
    if cs != [] {
      FilledIff(cs[1..], id, input);
      assert forall i | 0 < i < |cs| :: cs[i] == cs[1..][i - 1];
    }
  }

  lemma EmptySlotIff(cat: Catalogue, d: Draft, id: string)
    ensures BlockLacksInput(cat, d, id) <==> HasEmptySlot(cat, d, id)
  {
    forall def { DefinitionIff(cat, d.blocks, id, def); }
    forall slot: Slot { FilledIff(d.connections, id, slot.name); }
  }

  lemma ContractIff(cat: Catalogue, d: Draft, id: string, e: Execution)
    ensures BlockHasExecution(cat, d, id, e) <==> HasContract(cat, d, id, e)
  {
    forall def { DefinitionIff(cat, d.blocks, id, def); }
  }

  /** Some block that hangs below the Start lacks an input. */
  ghost predicate LacksBelow(cat: Catalogue, d: Draft, g: Children, root: string) {
    exists n :: Reaches(g, root, n) && HasEmptySlot(cat, d, n)
  }

  ghost predicate HasBelow(cat: Catalogue, d: Draft, g: Children, root: string, e: Execution) {
    exists n :: Reaches(g, root, n) && HasContract(cat, d, n, e)
  }

  lemma LacksBelowIff(cat: Catalogue, d: Draft, g: Children, root: string)
    ensures LacksInput(cat, d, Visit(g, root, [])) <==> LacksBelow(cat, d, g, root)
  {
    var ids := Visit(g, root, []);
    VisitExact(g, root);
    if i :| 0 <= i < |ids| && BlockLacksInput(cat, d, ids[i]) {
      EmptySlotIff(cat, d, ids[i]);
      assert Reaches(g, root, ids[i]);
    }
    if n :| Reaches(g, root, n) && HasEmptySlot(cat, d, n) {
      EmptySlotIff(cat, d, n);
      var i :| 0 <= i < |ids| && ids[i] == n;
    }
  }

  lemma HasBelowIff(cat: Catalogue, d: Draft, g: Children, root: string, e: Execution)
    ensures HasExecution(cat, d, Visit(g, root, []), e) <==> HasBelow(cat, d, g, root, e)
  {
    var ids := Visit(g, root, []);
    VisitExact(g, root);
    if i :| 0 <= i < |ids| && BlockHasExecution(cat, d, ids[i], e) {
      ContractIff(cat, d, ids[i], e);
      assert Reaches(g, root, ids[i]);
    }
    if n :| Reaches(g, root, n) && HasContract(cat, d, n, e) {
      ContractIff(cat, d, n, e);
      var i :| 0 <= i < |ids| && ids[i] == n;
    }
  }

  /** A graph's capability, by what hangs below its Start: a missing input comes
      first, then a draft-only block, then one that needs a context. */
  lemma CapabilityIff(cat: Catalogue, d: Draft, g: Children, root: string)
    ensures
      var capability := GraphOf(cat, d, g, root).capability;
      var lacks := LacksBelow(cat, d, g, root);
      var draft, context := HasBelow(cat, d, g, root, DraftOnlyBlock), HasBelow(cat, d, g, root, NeedsContext);
      && (capability == Incomplete <==> lacks)
      && (capability == DraftOnly <==> !lacks && draft)
      && (capability == Unsupported <==> !lacks && !draft && context)
      && (capability == Ready <==> !lacks && !draft && !context)
  {
    LacksBelowIff(cat, d, g, root);
    HasBelowIff(cat, d, g, root, DraftOnlyBlock);
    HasBelowIff(cat, d, g, root, NeedsContext);
  }

  // ----- compilation -----

  /** Connection k is the first one into the input of block id. */
  predicate FirstInput(cs: seq<Connection>, id: string, input: string, k: nat) {
    k < |cs| && Enters(cs[k], id, input) && forall i | 0 <= i < k :: !Enters(cs[i], id, input)
  }

  /** The first connection into the input of block id leads to b. */
  ghost predicate Leads(d: Draft, id: string, input: string, b: Block) {
    exists k: nat :: FirstInput(d.connections, id, input, k) && Names(d.blocks, d.connections[k].childId, b)
  }

  lemma {:induction false} FindInputFirst(cs: seq<Connection>, id: string, input: string) returns (k: nat)
    requires FindInput(cs, id, input).Some?
    ensures FirstInput(cs, id, input, k) && cs[k] == FindInput(cs, id, input).value
  {
    if Enters(cs[0], id, input) {
      k := 0;
    } else {
      var j := FindInputFirst(cs[1..], id, input);
      assert forall i | 0 < i <= j + 1 :: cs[i] == cs[1..][i - 1];
      k := j + 1;
    }
  }

  lemma FirstInputOnce(cs: seq<Connection>, id: string, input: string, j: nat, k: nat)
    requires FirstInput(cs, id, input, j) && FirstInput(cs, id, input, k)
    ensures j == k
  {
  }

  lemma LeadsIff(d: Draft, id: string, input: string, b: Block)
    ensures ChildAt(d, id, input) == Some(b) <==> Leads(d, id, input, b)
  {
    if FindInput(d.connections, id, input).Some? {
      var k := FindInputFirst(d.connections, id, input);
      FindNames(d.blocks, d.connections[k].childId, b);
      if Leads(d, id, input, b) {
        var j: nat :| FirstInput(d.connections, id, input, j) && Names(d.blocks, d.connections[j].childId, b);
        FirstInputOnce(d.connections, id, input, j, k);
      }
    } else {
      FilledIff(d.connections, id, input);
    }
  }

  /** What a Start of this kind listens to. */
  predicate ListensTo(b: Block, timeframe: Timeframe) {
    b.definitionId == match timeframe case Daily => "start-daily" case Monthly => "start-monthly"
  }

  /** The asset that a block names: its own reference, or its field as a text. */
  predicate NamesAsset(co: Coercions, b: Block, asset: string) {
    if b.objectRef.Some? then asset == b.objectRef.value
    else if "REFERENCE" in b.fields && b.fields["REFERENCE"] != NullField then asset == co.toText(b.fields["REFERENCE"])
    else asset == ""
  }

  predicate IsHundred(co: Coercions, b: Block) {
    "VALUE" in b.fields && b.fields["VALUE"] != NullField && co.toNumber(b.fields["VALUE"]) == Some(100.0)
  }

  /** The drawing is a Start, a rebalance, one asset and 100 per cent. */
  ghost predicate Draws(co: Coercions, d: Draft, rootId: string, root: Block, action: Block, target: Block,
                        weight: Block) {
    && Names(d.blocks, rootId, root)
    && Leads(d, rootId, "NEXT", action) && action.definitionId == "rebalance"
    && Leads(d, action.id, "TARGET", target) && target.definitionId == "asset-reference"
    && Leads(d, action.id, "WEIGHT", weight) && weight.definitionId == "percentage" && IsHundred(co, weight)
  }

  /** Below the Start stands the rebalance of this asset to 100 per cent, on each of these closes. */
  ghost predicate DrawsRebalance(co: Coercions, d: Draft, rootId: string, asset: string, timeframe: Timeframe) {
    exists root, action, target, weight ::
      Draws(co, d, rootId, root, action, target, weight) && NamesAsset(co, target, asset) && ListensTo(root, timeframe)
  }

  lemma RootCompilesAs(co: Coercions, d: Draft, rootId: string, root: Block, action: Block, target: Block,
                       weight: Block, asset: string, timeframe: Timeframe)
    requires Draws(co, d, rootId, root, action, target, weight)
    requires NamesAsset(co, target, asset) && asset != "" && ListensTo(root, timeframe)
    ensures CompileRoot(co, d, rootId)
         == Compilation(Compiled, Some(CommitSingleAsset(asset, timeframe, rootId)), Some(rootId))
  {
    FindNames(d.blocks, rootId, root);
    LeadsIff(d, rootId, "NEXT", action);
    LeadsIff(d, action.id, "TARGET", target);
    LeadsIff(d, action.id, "WEIGHT", weight);
    StartsDiffer();
  }

  lemma StartsDiffer()
    ensures "start-daily" != "start-monthly"
  {
    assert "start-daily"[6] == 'd' && "start-monthly"[6] == 'm';
  }

  lemma CompiledRootDraws(co: Coercions, d: Draft, rootId: string)
    returns (root: Block, action: Block, target: Block, weight: Block)
    requires CompileRoot(co, d, rootId).outcome == Compiled
    ensures Draws(co, d, rootId, root, action, target, weight)
    ensures NamesAsset(co, target, CompileRoot(co, d, rootId).operation.value.asset)
    ensures CompileRoot(co, d, rootId).operation.value.asset != ""
    ensures ListensTo(root, CompileRoot(co, d, rootId).operation.value.timeframe)
  {
    root := Find(d.blocks, rootId).value;
    action := ChildAt(d, root.id, "NEXT").value;
    target, weight := ChildAt(d, action.id, "TARGET").value, ChildAt(d, action.id, "WEIGHT").value;
    FindNames(d.blocks, rootId, root);
    LeadsIff(d, rootId, "NEXT", action);
    LeadsIff(d, action.id, "TARGET", target);
    LeadsIff(d, action.id, "WEIGHT", weight);
  }

  /** The compiler answers an operation if and only if the draft is valid, has one
      graph, that graph is ready, and draws the rebalance of one named asset to 100
      per cent at the Start of a supported timeframe; the operation is that one. */
  lemma CompiledIff(co: Coercions, d: Draft, v: Validation, asset: string, timeframe: Timeframe, rootId: string)
    ensures Compile(co, d, v).operation == Some(CommitSingleAsset(asset, timeframe, rootId))
       <==> && v.diagnostics == [] && |v.graphs| == 1 && v.graphs[0].capability == Ready && v.graphs[0].rootId == rootId
            && asset != ""
            && DrawsRebalance(co, d, rootId, asset, timeframe)
  {
    if Compile(co, d, v).operation == Some(CommitSingleAsset(asset, timeframe, rootId)) {
      var root, action, target, weight := CompiledRootDraws(co, d, rootId);
    }
    if DrawsRebalance(co, d, rootId, asset, timeframe) && asset != "" {
      var root, action, target, weight :|
        Draws(co, d, rootId, root, action, target, weight) && NamesAsset(co, target, asset)
        && ListensTo(root, timeframe);
      RootCompilesAs(co, d, rootId, root, action, target, weight, asset, timeframe);
    }
  }

  /** Why a draft is not compiled, and which Start is named. */
  lemma OutcomeIff(co: Coercions, d: Draft, v: Validation)
    ensures
      var c := Compile(co, d, v);
      var one := v.diagnostics == [] && |v.graphs| == 1;
      && (c.outcome == NotValid <==> v.diagnostics != [])
      && (c.outcome == NotComplete <==>
            v.diagnostics == [] && (v.graphs == [] || (one && v.graphs[0].capability == Incomplete)))
      && (c.outcome == Compiled <==> c.operation.Some?)
      && c.rootId == (if one then Some(v.graphs[0].rootId) else None)
  {
  }
}
