/** A draft that the visual compiler accepts and whose second action it drops. */
module ChainedActions {
  import opened Options
  import opened Traversal
  import opened VisualGraph
  import opened GraphCompiler

  /** The catalogue's entries for the block kinds used here. */
  ghost predicate Stocks(cat: Catalogue) {
    && cat("start-daily") == Some(Definition(Hat, None, [], Verified))
    && cat("rebalance") == Some(Definition(Statement, None, REBALANCE_SLOTS, Verified))
    && cat("asset-reference") == Some(Definition(Value, Some("Asset"), [], Verified))
    && cat("percentage") == Some(Definition(Value, Some("Percentage"), [], Verified))
  }

  const REBALANCE_SLOTS: seq<Slot> := [Slot("TARGET", ["Asset", "AssetSet"]), Slot("WEIGHT", ["Percentage"])]

  function Plain(id: string, definitionId: string): Block {
    Block(id, definitionId, None, map[])
  }

  function Asset(id: string, symbol: string): Block {
    Block(id, "asset-reference", Some(symbol), map[])
  }

  function Percentage(id: string): Block {
    Block(id, "percentage", None, map["VALUE" := NumberField(100.0)])
  }

  function Below(child: string, parent: string, input: string): Connection {
    Connection(child, Some(parent), Some(input))
  }

  /** On every daily close: rebalance to 100% of the first symbol, then of the second. */
  function Chained(first: string, second: string): Draft {
    Draft([Plain("s", "start-daily"), Plain("a", "rebalance"), Asset("t", first), Percentage("w"),
           Plain("b", "rebalance"), Asset("u", second), Percentage("v")],
          [Below("a", "s", "NEXT"), Below("t", "a", "TARGET"), Below("w", "a", "WEIGHT"),
           Below("b", "a", "NEXT"), Below("u", "b", "TARGET"), Below("v", "b", "WEIGHT")])
  }

  lemma {:induction false} FindAt(blocks: seq<Block>, i: nat)
    requires i < |blocks| && forall j | 0 <= j < i :: blocks[j].id != blocks[i].id
    ensures Find(blocks, blocks[i].id) == Some(blocks[i])
  {
    if i > 0 {
      assert blocks[0].id != blocks[i].id;
      assert forall j | 0 <= j < i - 1 :: blocks[1..][j] == blocks[j + 1];
      FindAt(blocks[1..], i - 1);
    }
  }

  lemma {:induction false} FindInputAt(cs: seq<Connection>, i: nat, parent: string, input: string)
    requires i < |cs| && Enters(cs[i], parent, input) && forall j | 0 <= j < i :: !Enters(cs[j], parent, input)
    ensures FindInput(cs, parent, input) == Some(cs[i])
  {
    if i > 0 {
      assert !Enters(cs[0], parent, input);
      assert forall j | 0 <= j < i - 1 :: cs[1..][j] == cs[j + 1];
      FindInputAt(cs[1..], i - 1, parent, input);
    }
  }

  predicate DistinctIds(blocks: seq<Block>) {
    forall i, j | 0 <= i < j < |blocks| :: blocks[i].id != blocks[j].id
  }

  lemma ChainedIds(first: string, second: string)
    ensures DistinctIds(Chained(first, second).blocks)
  {
    var ids := ["s", "a", "t", "w", "b", "u", "v"];
    var chars := ['s', 'a', 't', 'w', 'b', 'u', 'v'];
    var blocks := Chained(first, second).blocks;
    assert forall i | 0 <= i < |blocks| :: blocks[i].id == ids[i] && ids[i][0] == chars[i];
    forall i, j | 0 <= i < j < |blocks| ensures blocks[i].id != blocks[j].id {
      assert ids[i][0] == chars[i] && ids[j][0] == chars[j] && chars[i] != chars[j];
    }
  }

  lemma ChainedBlock(first: string, second: string, i: nat)
    requires i < 7
    ensures
      var blocks := Chained(first, second).blocks;
      Find(blocks, blocks[i].id) == Some(blocks[i])
  {
    ChainedIds(first, second);
    FindAt(Chained(first, second).blocks, i);
  }

  lemma ChainedInput(first: string, second: string, i: nat)
    requires i < 6
    ensures
      var cs := Chained(first, second).connections;
      FindInput(cs, cs[i].parentId.value, cs[i].inputName.value) == Some(cs[i])
  {
    var cs := Chained(first, second).connections;
    assert "NEXT"[0] == 'N' && "TARGET"[0] == 'T' && "WEIGHT"[0] == 'W';
    assert "s"[0] == 's' && "a"[0] == 'a' && "b"[0] == 'b';
    forall j | 0 <= j < i ensures !Enters(cs[j], cs[i].parentId.value, cs[i].inputName.value) {
    }
    FindInputAt(cs, i, cs[i].parentId.value, cs[i].inputName.value);
  }

  lemma ChainedCompiles(co: Coercions, first: string, second: string)
    requires co.toNumber(NumberField(100.0)) == Some(100.0) && first != ""
    ensures CompileRoot(co, Chained(first, second), "s")
        == Compilation(Compiled, Some(CommitSingleAsset(first, Daily, "s")), Some("s"))
    ensures ChildAt(Chained(first, second), "s", "NEXT") == Some(Plain("a", "rebalance"))
    ensures ChildAt(Chained(first, second), "a", "NEXT") == Some(Plain("b", "rebalance"))
  {
    var d := Chained(first, second);
    ChainedBlock(first, second, 0);
    ChainedChildren(first, second);
    ChainedSupported(co, first);
    CompileSupported(co, d, d.blocks[0], d.blocks[1], d.blocks[2], d.blocks[3]);
  }

  lemma ChainedChildren(first: string, second: string)
    ensures
      var d := Chained(first, second);
      && ChildAt(d, "s", "NEXT") == Some(d.blocks[1]) && ChildAt(d, "a", "TARGET") == Some(d.blocks[2])
      && ChildAt(d, "a", "WEIGHT") == Some(d.blocks[3]) && ChildAt(d, "a", "NEXT") == Some(d.blocks[4])
  {
    ChainedChild(first, second, 0, 1);
    ChainedChild(first, second, 1, 2);
    ChainedChild(first, second, 2, 3);
    ChainedChild(first, second, 3, 4);
  }

  lemma ChainedChild(first: string, second: string, i: nat, child: nat)
    requires i < 6 && child < 7
        && Chained(first, second).connections[i].childId == Chained(first, second).blocks[child].id
    ensures
      var d := Chained(first, second);
      ChildAt(d, d.connections[i].parentId.value, d.connections[i].inputName.value) == Some(d.blocks[child])
  {
    ChainedInput(first, second, i);
    ChainedBlock(first, second, child);
  }

  lemma CompileSupported(co: Coercions, d: Draft, root: Block, action: Block, target: Block, weight: Block)
    requires Find(d.blocks, root.id) == Some(root) && ChildAt(d, root.id, "NEXT") == Some(action)
    requires ChildAt(d, action.id, "TARGET") == Some(target) && ChildAt(d, action.id, "WEIGHT") == Some(weight)
    requires Supported(co, root, action, target, weight)
    ensures CompileRoot(co, d, root.id) ==
            Compilation(Compiled, Some(CommitSingleAsset(AssetOf(co, target), TimeframeOf(root).value, root.id)),
                        Some(root.id))
  {
  }

  lemma ChainedSupported(co: Coercions, first: string)
    requires co.toNumber(NumberField(100.0)) == Some(100.0) && first != ""
    ensures Supported(co, Plain("s", "start-daily"), Plain("a", "rebalance"), Asset("t", first), Percentage("w"))
    ensures AssetOf(co, Asset("t", first)) == first && TimeframeOf(Plain("s", "start-daily")) == Some(Daily)
  {
  }

  // ----- the draft is valid and ready -----

  lemma ChainedKind(cat: Catalogue, first: string, second: string, i: nat)
    requires Stocks(cat) && i < 7
    ensures
      var blocks := Chained(first, second).blocks;
      && cat(blocks[i].definitionId).Some? && cat(blocks[i].definitionId).value.execution == Verified
      && (IsHat(cat, blocks[i]) <==> i == 0)
  {
  }

  lemma ChainedRoots(cat: Catalogue, first: string, second: string)
    requires Stocks(cat)
    ensures Roots(cat, Chained(first, second).blocks) == ["s"]
  {
    var blocks := Chained(first, second).blocks;
    forall i | 0 <= i < |blocks| ensures IsHat(cat, blocks[i]) <==> i == 0 {
      ChainedKind(cat, first, second, i);
    }
    OneRoot(cat, blocks);
  }

  lemma {:induction false} OneRoot(cat: Catalogue, blocks: seq<Block>)
    requires blocks != [] && forall i | 0 <= i < |blocks| :: IsHat(cat, blocks[i]) <==> i == 0
    ensures Roots(cat, blocks) == [blocks[0].id]
  {
    var init := blocks[..|blocks| - 1];
    if |blocks| > 1 {
      assert forall i | 0 <= i < |init| :: init[i] == blocks[i];
      OneRoot(cat, init);
    } else {
      assert Roots(cat, init) == [];
    }
  }

  lemma ChainedTyped(cat: Catalogue, first: string, second: string, i: nat)
    requires Stocks(cat) && i < 6
    ensures WellTyped(cat, Chained(first, second).blocks, Chained(first, second).connections[i])
  {
    var d := Chained(first, second);
    ChainedSilent(cat, first, second, i);
    TypeDiagnosticIff(cat, d.blocks, d.connections[i]);
  }

  lemma ChainedSilent(cat: Catalogue, first: string, second: string, i: nat)
    requires Stocks(cat) && i < 6
    ensures TypeDiagnostic(cat, Chained(first, second).blocks, Chained(first, second).connections[i]) == []
  {
    var d := Chained(first, second);
    var parents, children := [0, 1, 1, 1, 4, 4], [1, 2, 3, 4, 5, 6];
    assert d.connections[i].childId == d.blocks[children[i]].id;
    assert d.connections[i].parentId == Some(d.blocks[parents[i]].id);
    ChainedBlock(first, second, parents[i]);
    ChainedBlock(first, second, children[i]);
    assert "NEXT"[0] == 'N' && "TARGET"[0] == 'T' && "WEIGHT"[0] == 'W';
    RebalanceSlots();
  }

  lemma RebalanceSlots()
    ensures FindSlot(REBALANCE_SLOTS, Some("NEXT")) == None
    ensures FindSlot(REBALANCE_SLOTS, Some("TARGET")) == Some(REBALANCE_SLOTS[0])
    ensures FindSlot(REBALANCE_SLOTS, Some("WEIGHT")) == Some(REBALANCE_SLOTS[1])
  {
    assert "NEXT"[0] == 'N' && "TARGET"[0] == 'T' && "WEIGHT"[0] == 'W';
    assert REBALANCE_SLOTS[1..] == [REBALANCE_SLOTS[1]] && [REBALANCE_SLOTS[1]][1..] == [];
    assert FindSlot([REBALANCE_SLOTS[1]], Some("WEIGHT")) == Some(REBALANCE_SLOTS[1]);
    assert FindSlot([REBALANCE_SLOTS[1]], Some("NEXT")) == None;
  }

  /** Nothing is missing below any block. */
  lemma ChainedFilled(cat: Catalogue, first: string, second: string, n: string)
    requires Stocks(cat) && DefinitionOf(cat, Chained(first, second).blocks, n).Some?
    ensures !BlockLacksInput(cat, Chained(first, second), n)
        && BlockHasExecution(cat, Chained(first, second), n, Verified)
  {
    var d := Chained(first, second);
    var b := Find(d.blocks, n).value;
    var i :| 0 <= i < |d.blocks| && d.blocks[i] == b;
    ChainedKind(cat, first, second, i);
    var slots := cat(b.definitionId).value.slots;
    assert slots == if i == 1 || i == 4 then REBALANCE_SLOTS else [];
    forall s | s in slots ensures SlotFilled(d.connections, n, s) {
      assert s == REBALANCE_SLOTS[0] || s == REBALANCE_SLOTS[1];
      ChainedInput(first, second, if i == 1 then 1 else 4);
      ChainedInput(first, second, if i == 1 then 2 else 5);
    }
  }

  lemma ChainedValid(cat: Catalogue, first: string, second: string, g: Children)
    requires Stocks(cat)
    ensures
      var v := Validated(cat, Chained(first, second), g);
      v.diagnostics == [] && |v.graphs| == 1 && v.graphs[0].rootId == "s" && v.graphs[0].capability == Ready
  {
    var d := Chained(first, second);
    ChainedRoots(cat, first, second);
    forall i | 0 <= i < |d.connections| ensures WellTyped(cat, d.blocks, d.connections[i]) {
      ChainedTyped(cat, first, second, i);
    }
    ValidIff(cat, d);
    GraphsAt(cat, d, g, ["s"]);
    forall n | Reaches(g, "s", n) && DefinitionOf(cat, d.blocks, n).Some?
      ensures !BlockLacksInput(cat, d, n) && BlockHasExecution(cat, d, n, Verified)
    {
      ChainedFilled(cat, first, second, n);
    }
    ReadyIff(cat, d, g, "s");
  }

  /** The draft passes validation, compiles, and loses its second rebalance: the
      operation holds the first asset, and the graph draws both. */
  lemma SecondActionIsDropped(cat: Catalogue, co: Coercions, first: string, second: string, g: Children)
    requires Stocks(cat) && IsChildMap(g, Chained(first, second).connections)
    requires co.toNumber(NumberField(100.0)) == Some(100.0) && first != ""
    ensures
      var d := Chained(first, second);
      var compiled := Compile(co, d, Validated(cat, d, g));
      && compiled.outcome == Compiled && compiled.operation == Some(CommitSingleAsset(first, Daily, "s"))
      && OperationProgram(compiled.operation.value) != GraphProgram(co, d, Plain("s", "start-daily"))
  {
    var d := Chained(first, second);
    ChainedValid(cat, first, second, g);
    ChainedCompiles(co, first, second);
    ChainedBlock(first, second, 0);
    CompiledMeaningIff(co, d, "s");
  }
}
