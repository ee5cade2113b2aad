/** Laying out the capital flow: each node's row is its memoised depth below the
    sources of the flow, and nodes of one row stand side by side. */
module FlowLayout {
  import opened Traversal

  datatype Edge = Edge(source: string, target: string)

  datatype Flow = Flow(nodes: seq<string>, edges: seq<Edge>)

  datatype Position = Position(x: int, y: int)

  // ----- parents -----

  function ParentsOf(edges: seq<Edge>, n: string): seq<string> {
    if edges == [] then []
    else
      var last := edges[|edges| - 1];
      ParentsOf(edges[..|edges| - 1], n) + if last.target == n then [last.source] else []
  }

  lemma {:induction false} ParentsExact(edges: seq<Edge>, n: string, m: string)
    ensures m in ParentsOf(edges, n) <==> Edge(m, n) in edges
  {
    if edges != [] {
      ParentsExact(edges[..|edges| - 1], n, m);
      assert edges == edges[..|edges| - 1] + [edges[|edges| - 1]];
    }
  }

  ghost predicate IsParentMap(inc: Children, edges: seq<Edge>) {
    forall n :: Kids(inc, n) == ParentsOf(edges, n) && (n in inc <==> ParentsOf(edges, n) != [])
  }

  /** The `incoming` map of the projection. */
  method BuildIncoming(edges: seq<Edge>) returns (inc: Children)
    ensures IsParentMap(inc, edges)
  {
    inc := map[];
    for i := 0 to |edges|
      invariant IsParentMap(inc, edges[..i])
    {
      ghost var before := inc;
      assert edges[..i + 1][..i] == edges[..i];
      inc := inc[edges[i].target := Kids(inc, edges[i].target) + [edges[i].source]];
      forall n ensures Kids(inc, n) == ParentsOf(edges[..i + 1], n)
          && (n in inc <==> ParentsOf(edges[..i + 1], n) != []) {
        assert Kids(before, n) == ParentsOf(edges[..i], n) && (n in before <==> ParentsOf(edges[..i], n) != []);
      }
    }
    assert edges[..|edges|] == edges;
  }

  // ----- trails and longest paths -----

  /** p follows edges from its first node to its last. */
  ghost predicate IsTrail(inc: Children, p: seq<string>) {
    p != [] && forall i | 0 <= i < |p| - 1 :: Link(inc, p, i)
  }

  ghost predicate Link(inc: Children, p: seq<string>, i: nat)
    requires i + 1 < |p|
  {
    p[i] in Kids(inc, p[i + 1])
  }

  ghost predicate TrailTo(inc: Children, p: seq<string>, n: string) {
    IsTrail(inc, p) && p[|p| - 1] == n
  }

  ghost predicate Acyclic(inc: Children) {
    forall p | IsTrail(inc, p) && |p| > 1 :: p[0] != p[|p| - 1]
  }

  /** d edges is the length of the longest trail into n, and such a trail starts
      at a node without parents. */
  ghost predicate Longest(inc: Children, n: string, d: nat) {
    && (exists p :: TrailTo(inc, p, n) && |p| == d + 1 && Kids(inc, p[0]) == [])
    && (forall p | TrailTo(inc, p, n) :: |p| <= d + 1)
  }

  /** Following edges leads from id to every node of active, in one step or more. */
  ghost predicate LeadsToAll(inc: Children, id: string, active: set<string>) {
    forall a | a in active :: exists p :: TrailTo(inc, p, a) && |p| > 1 && p[0] == id
  }

  lemma TrailPrepend(inc: Children, q: string, p: seq<string>)
    requires IsTrail(inc, p) && q in Kids(inc, p[0])
    ensures IsTrail(inc, [q] + p)
  {
    var t := [q] + p;
    forall i | 0 <= i < |t| - 1 ensures Link(inc, t, i) {
      if i > 0 {
        assert Link(inc, p, i - 1) && t[i] == p[i - 1] && t[i + 1] == p[i];
      }
    }
  }

  lemma TrailAppend(inc: Children, p: seq<string>, n: string)
    requires IsTrail(inc, p) && p[|p| - 1] in Kids(inc, n)
    ensures TrailTo(inc, p + [n], n)
  {
    var t := p + [n];
    forall i | 0 <= i < |t| - 1 ensures Link(inc, t, i) {
      if i < |p| - 1 {
        assert Link(inc, p, i) && t[i] == p[i] && t[i + 1] == p[i + 1];
      }
    }
  }

  lemma LeadsFromParent(inc: Children, q: string, id: string, active: set<string>)
    requires q in Kids(inc, id) && LeadsToAll(inc, id, active)
    ensures LeadsToAll(inc, q, active + {id})
  {
    forall a | a in active + {id} ensures exists p :: TrailTo(inc, p, a) && |p| > 1 && p[0] == q {
      if a == id {
        TrailPrepend(inc, q, [id]);
        assert TrailTo(inc, [q] + [id], id);
      } else {
        var p :| TrailTo(inc, p, a) && |p| > 1 && p[0] == id;
        TrailPrepend(inc, q, p);
        assert TrailTo(inc, [q] + p, a);
      }
    }
  }

  lemma NotOnOwnTrail(inc: Children, id: string, active: set<string>)
    requires Acyclic(inc) && LeadsToAll(inc, id, active)
    ensures id !in active
  {
    assert forall p | TrailTo(inc, p, id) && |p| > 1 :: p[0] != id;
  }

  lemma LastEdgeOfTrail(inc: Children, p: seq<string>)
    requires IsTrail(inc, p)
    ensures |p| > 1 ==> p[|p| - 2] in Kids(inc, p[|p| - 1]) && IsTrail(inc, p[..|p| - 1])
  {
    if |p| > 1 {
      assert Link(inc, p, |p| - 2);
      var init := p[..|p| - 1];
      forall i | 0 <= i < |init| - 1 ensures Link(inc, init, i) {
        assert Link(inc, p, i);
      }
    }
  }

  lemma LongestAtSource(inc: Children, id: string)
    requires Kids(inc, id) == []
    ensures Longest(inc, id, 0)
  {
    assert TrailTo(inc, [id], id);
    forall p | TrailTo(inc, p, id) ensures |p| <= 1 {
      LastEdgeOfTrail(inc, p);
    }
  }

  /** The greatest depth among the first i parents, plus one, is value. */
  ghost predicate Best(inc: Children, parents: seq<string>, i: nat, value: nat)
    requires i <= |parents|
  {
    && (forall j | 0 <= j < i :: Shallower(inc, parents[j], value))
    && (if i == 0 then value == 0 else value > 0 && exists j :: 0 <= j < i && Longest(inc, parents[j], value - 1))
  }

  ghost predicate Shallower(inc: Children, n: string, value: nat) {
    exists d: nat :: d < value && Longest(inc, n, d)
  }

  lemma BestStep(inc: Children, parents: seq<string>, i: nat, value: nat, d: nat)
    requires i < |parents| && Best(inc, parents, i, value) && Longest(inc, parents[i], d)
    ensures Best(inc, parents, i + 1, if d + 1 > value then d + 1 else value)
  {
    var next := if d + 1 > value then d + 1 else value;
    forall j | 0 <= j < i + 1 ensures Shallower(inc, parents[j], next) {
      if j < i {
        var e: nat :| e < value && Longest(inc, parents[j], e);
      }
    }
    if d + 1 <= value {
      var j :| 0 <= j < i && Longest(inc, parents[j], value - 1);
    }
  }

  /** The longest trail into id goes through the parent with the longest one. */
  lemma LongestStep(inc: Children, id: string, value: nat)
    requires Best(inc, Kids(inc, id), |Kids(inc, id)|, value)
    ensures Longest(inc, id, value)
  {
    if Kids(inc, id) == [] {
      LongestAtSource(inc, id);
    } else {
      LongestReached(inc, id, value);
      forall q | TrailTo(inc, q, id) ensures |q| <= value + 1 {
        LongestBound(inc, id, value, q);
      }
    }
  }

  lemma LongestReached(inc: Children, id: string, value: nat)
    requires Kids(inc, id) != [] && Best(inc, Kids(inc, id), |Kids(inc, id)|, value)
    ensures exists p :: TrailTo(inc, p, id) && |p| == value + 1 && Kids(inc, p[0]) == []
  {
    var parents := Kids(inc, id);
    var i :| 0 <= i < |parents| && Longest(inc, parents[i], value - 1);
    var p :| TrailTo(inc, p, parents[i]) && |p| == value && Kids(inc, p[0]) == [];
    TrailAppend(inc, p, id);
    assert (p + [id])[0] == p[0];
  }

  lemma LongestBound(inc: Children, id: string, value: nat, q: seq<string>)
    requires Best(inc, Kids(inc, id), |Kids(inc, id)|, value) && TrailTo(inc, q, id)
    ensures |q| <= value + 1
  {
    LastEdgeOfTrail(inc, q);
    if |q| > 1 {
      var parents := Kids(inc, id);
      var j :| 0 <= j < |parents| && parents[j] == q[|q| - 2];
      ShallowTrail(inc, parents[j], value, q[..|q| - 1]);
    }
  }

  lemma ShallowTrail(inc: Children, n: string, value: nat, t: seq<string>)
    requires Shallower(inc, n, value) && TrailTo(inc, t, n)
    ensures |t| <= value
  {
    var d: nat :| d < value && Longest(inc, n, d);
  }

  // ----- memoised depth -----

  /** What visiting does to the memo: nothing recorded changes, and the nodes in
      progress are not recorded by others. */
  ghost predicate Grown(before: map<string, nat>, after: map<string, nat>, active: set<string>) {
    && (forall n | n in before :: n in after && after[n] == before[n])
    && (forall a | a in active :: a in after <==> a in before)
  }

  /** Every recorded depth is a longest-path length. */
  ghost predicate Correct(inc: Children, depth: map<string, nat>) {
    forall n | n in depth :: Longest(inc, n, depth[n])
  }

  ghost predicate InProgress(inc: Children, id: string, active: set<string>) {
    Acyclic(inc) && LeadsToAll(inc, id, active)
  }

  /** Half way through the parents of a node. */
  ghost predicate PartWay(inc: Children, depth: map<string, nat>, parents: seq<string>, i: nat, value: nat) {
    i <= |parents| && Correct(inc, depth) && Best(inc, parents, i, value)
  }

  lemma PartWayStep(inc: Children, before: map<string, nat>, after: map<string, nat>, parents: seq<string>, i: nat,
                    value: nat, d: nat)
    requires i < |parents| && PartWay(inc, before, parents, i, value)
    requires Correct(inc, after) && Longest(inc, parents[i], d)
    ensures PartWay(inc, after, parents, i + 1, if d + 1 > value then d + 1 else value)
  {
    BestStep(inc, parents, i, value, d);
  }

  lemma GrownTrans(a: map<string, nat>, b: map<string, nat>, c: map<string, nat>, active: set<string>)
    requires Grown(a, b, active) && Grown(b, c, active)
    ensures Grown(a, c, active)
  {
  }

  ghost predicate AllInProgress(inc: Children, ids: seq<string>, active: set<string>) {
    forall i | 0 <= i < |ids| :: InProgress(inc, ids[i], active)
  }

  lemma ParentsInProgress(inc: Children, id: string, active: set<string>)
    requires InProgress(inc, id, active) && id in inc
    ensures AllInProgress(inc, inc[id], active + {id})
  {
    forall i | 0 <= i < |inc[id]| ensures InProgress(inc, inc[id][i], active + {id}) {
      LeadsFromParent(inc, inc[id][i], id, active);
    }
  }

  /** From its parents' depths to a node's own. */
  lemma RecordStep(inc: Children, before: map<string, nat>, id: string, value: nat)
    requires id in inc && PartWay(inc, before, inc[id], |inc[id]|, value)
    ensures Correct(inc, before[id := value]) && Longest(inc, id, value)
  {
    LongestStep(inc, id, value);
  }

  lemma AtParent(inc: Children, parents: seq<string>, active: set<string>, i: nat)
    requires i < |parents|
    ensures AllInProgress(inc, parents, active) ==> InProgress(inc, parents[i], active)
  {
  }

  /** One round of the loop over the parents. */
  lemma VisitStep(inc: Children, start: map<string, nat>, before: map<string, nat>, after: map<string, nat>,
                  active: set<string>, good: bool, parents: seq<string>, i: nat, value: nat, d: nat)
    requires Grown(start, before, active) && Grown(before, after, active) && i < |parents|
    requires good ==> PartWay(inc, before, parents, i, value) && Correct(inc, after) && Longest(inc, parents[i], d)
    ensures Grown(start, after, active)
    ensures good ==> PartWay(inc, after, parents, i + 1, if d + 1 > value then d + 1 else value)
  {
    GrownTrans(start, before, after, active);
    if good {
      PartWayStep(inc, before, after, parents, i, value, d);
    }
  }

  class DepthTable {
    var depth: map<string, nat>

    constructor ()
      ensures depth == map[]
    {
      depth := map[];
    }

    /** The closure `visit`: terminates on every graph; on an acyclic one it
        answers and records longest-path lengths. */
    method Visit(inc: Children, id: string, active: set<string>, ghost good: bool) returns (value: nat)
      requires good ==> InProgress(inc, id, active) && Correct(inc, depth)
      modifies this
      ensures Grown(old(depth), depth, active)
      ensures id !in active ==> id in depth && depth[id] == value
      ensures good ==> Correct(inc, depth) && Longest(inc, id, value)
      decreases |inc.Keys - active|, 0
    {
      if id in depth {
        return depth[id];
      }
      if id in active {
        if good { NotOnOwnTrail(inc, id, active); }
        return 0;
      }
      var nextActive := active + {id};
      value := 0;
      if id in inc {
        SmallerLeft(inc, active, id);
        if good { ParentsInProgress(inc, id, active); }
        value := VisitParents(inc, inc[id], nextActive, good);
        if good { RecordStep(inc, depth, id, value); }
      } else {
        LongestAtSource(inc, id);
      }
      depth := depth[id := value];
    }

    /** One more than the greatest depth of the parents. */
    method VisitParents(inc: Children, parents: seq<string>, active: set<string>, ghost good: bool) returns (value: nat)
      requires good ==> AllInProgress(inc, parents, active) && Correct(inc, depth)
      modifies this
      ensures Grown(old(depth), depth, active)
      ensures good ==> PartWay(inc, depth, parents, |parents|, value)
      decreases |inc.Keys - active|, 1
    {
      value := 0;
      for i := 0 to |parents|
        invariant Grown(old(depth), depth, active)
        invariant good ==> PartWay(inc, depth, parents, i, value)
      {
        ghost var before := depth;
        AtParent(inc, parents, active, i);
        var d := Visit(inc, parents[i], active, good);
        VisitStep(inc, old(depth), before, depth, active, good, parents, i, value, d);
        if d + 1 > value {
          value := d + 1;
        }
      }
    }
  }

  lemma SmallerLeft(inc: Children, active: set<string>, id: string)
    requires id in inc && id !in active
    ensures |inc.Keys - (active + {id})| < |inc.Keys - active|
  {
    var a, b := inc.Keys - (active + {id}), inc.Keys - active;
    assert id in b && id !in a;
    SubsetSize(a, b);
  }

  /** An edge leads to a strictly greater depth. */
  lemma EdgeDescends(inc: Children, edge: Edge, d: nat, e: nat)
    requires edge.source in Kids(inc, edge.target)
    requires Longest(inc, edge.source, d) && Longest(inc, edge.target, e)
    ensures d < e
  {
    var p :| TrailTo(inc, p, edge.source) && |p| == d + 1;
    TrailAppend(inc, p, edge.target);
  }

  // ----- rows and positions -----

  /** The nodes of one row, in node order. */
  function Row(nodes: seq<string>, depth: map<string, nat>, layer: nat): seq<string> {
    if nodes == [] then []
    else
      var last := nodes[|nodes| - 1];
      Row(nodes[..|nodes| - 1], depth, layer) + if DepthOf(depth, last) == layer then [last] else []
  }

  function DepthOf(depth: map<string, nat>, n: string): nat {
    if n in depth then depth[n] else 0
  }

  function IndexOf(peers: seq<string>, n: string): (k: nat)
    ensures n in peers ==> k < |peers| && peers[k] == n
    ensures forall j | 0 <= j < k && j < |peers| :: peers[j] != n
  {
    if peers == [] || peers[0] == n then 0 else 1 + IndexOf(peers[1..], n)
  }

  function Gap(peers: nat): int {
    if peers > 2 then 250 else 300
  }

  function Spot(peers: nat, index: nat, layer: nat): Position {
    Position(480 - (peers - 1) * Gap(peers) / 2 + index * Gap(peers), 40 + layer * 145)
  }

  function SpotOf(nodes: seq<string>, depth: map<string, nat>, n: string): Position {
    var peers := Row(nodes, depth, DepthOf(depth, n));
    Spot(|peers|, IndexOf(peers, n), DepthOf(depth, n))
  }

  lemma {:induction false} RowExact(nodes: seq<string>, depth: map<string, nat>, layer: nat, n: string)
    ensures n in Row(nodes, depth, layer) <==> n in nodes && DepthOf(depth, n) == layer
  {
    if nodes != [] {
      RowExact(nodes[..|nodes| - 1], depth, layer, n);
      assert nodes == nodes[..|nodes| - 1] + [nodes[|nodes| - 1]];
    }
  }

  /** Different nodes stand at different places, on every graph. */
  lemma SpotsDistinct(nodes: seq<string>, depth: map<string, nat>, m: string, n: string)
    requires m in nodes && n in nodes
    ensures SpotOf(nodes, depth, m) == SpotOf(nodes, depth, n) <==> m == n
  {
    RowExact(nodes, depth, DepthOf(depth, m), m);
    RowExact(nodes, depth, DepthOf(depth, n), n);
    var peers := Row(nodes, depth, DepthOf(depth, n));
    if SpotOf(nodes, depth, m) == SpotOf(nodes, depth, n) {
      assert DepthOf(depth, m) == DepthOf(depth, n);
      if |peers| > 2 {
        assert IndexOf(peers, m) * 250 == IndexOf(peers, n) * 250;
      } else {
        assert IndexOf(peers, m) * 300 == IndexOf(peers, n) * 300;
      }
    }
  }

  /** A row is centred on 480: the places of the k-th node from the left and of
      the k-th from the right are mirror images. */
  lemma RowCentred(peers: nat, k: nat, layer: nat)
    requires k < peers
    ensures Spot(peers, k, layer).x + Spot(peers, peers - 1 - k, layer).x == 960
  {
    if peers > 2 {
      assert forall i: nat :: Spot(peers, i, layer).x == 480 - (peers - 1) * 125 + i * 250;
    } else {
      assert forall i: nat :: Spot(peers, i, layer).x == 480 - (peers - 1) * 150 + i * 300;
    }
  }

  // ----- the projection -----

  datatype Placed = Placed(id: string, position: Position, hasIncoming: bool, hasOutgoing: bool)

  function LayerOf(layers: map<nat, seq<string>>, layer: nat): seq<string> {
    if layer in layers then layers[layer] else []
  }

  ghost predicate IsLayering(layers: map<nat, seq<string>>, nodes: seq<string>, depth: map<string, nat>) {
    forall k: nat :: LayerOf(layers, k) == Row(nodes, depth, k)
  }

  lemma LayeringStep(layers: map<nat, seq<string>>, nodes: seq<string>, depth: map<string, nat>, i: nat)
    requires i < |nodes| && IsLayering(layers, nodes[..i], depth)
    ensures
      var layer := DepthOf(depth, nodes[i]);
      IsLayering(layers[layer := LayerOf(layers, layer) + [nodes[i]]], nodes[..i + 1], depth)
  {
    var layer := DepthOf(depth, nodes[i]);
    var after := layers[layer := LayerOf(layers, layer) + [nodes[i]]];
    assert nodes[..i + 1][..i] == nodes[..i];
    forall k: nat ensures LayerOf(after, k) == Row(nodes[..i + 1], depth, k) {
      assert LayerOf(layers, k) == Row(nodes[..i], depth, k);
    }
  }

  method BuildLayers(nodes: seq<string>, depth: map<string, nat>) returns (layers: map<nat, seq<string>>)
    ensures IsLayering(layers, nodes, depth)
  {
    layers := map[];
    for i := 0 to |nodes|
      invariant IsLayering(layers, nodes[..i], depth)
    {
      var layer := DepthOf(depth, nodes[i]);
      LayeringStep(layers, nodes, depth, i);
      layers := layers[layer := LayerOf(layers, layer) + [nodes[i]]];
    }
    assert nodes[..|nodes|] == nodes;
  }

  method Index(peers: seq<string>, id: string) returns (k: nat)
    requires id in peers
    ensures k == IndexOf(peers, id)
  {
    k := 0;
    while peers[k] != id
      invariant k < |peers| && id in peers[k..]
      invariant IndexOf(peers, id) == k + IndexOf(peers[k..], id)
      decreases |peers| - k
    {
      assert peers[k..][1..] == peers[k + 1..];
      k := k + 1;
    }
  }

  function Drawn(nodes: seq<string>, depth: map<string, nat>, ins: set<string>, outs: set<string>, n: string): Placed {
    Placed(n, SpotOf(nodes, depth, n), n in ins, n in outs)
  }

  method PlaceNode(nodes: seq<string>, depth: map<string, nat>, layers: map<nat, seq<string>>,
                   ins: set<string>, outs: set<string>, n: string) returns (placed: Placed)
    requires IsLayering(layers, nodes, depth) && n in nodes
    ensures placed == Drawn(nodes, depth, ins, outs, n)
  {
    var layer := DepthOf(depth, n);
    RowExact(nodes, depth, layer, n);
    var peers := LayerOf(layers, layer);
    var index := Index(peers, n);
    placed := Placed(n, Spot(|peers|, index, layer), n in ins, n in outs);
  }

  method PlaceNodes(nodes: seq<string>, depth: map<string, nat>, ins: set<string>, outs: set<string>)
    returns (placed: seq<Placed>)
    ensures |placed| == |nodes|
    ensures forall i | 0 <= i < |nodes| :: placed[i] == Drawn(nodes, depth, ins, outs, nodes[i])
  {
    var layers := BuildLayers(nodes, depth);
    placed := [];
    for i := 0 to |nodes|
      invariant |placed| == i
      invariant forall j | 0 <= j < i :: placed[j] == Drawn(nodes, depth, ins, outs, nodes[j])
    {
      var next := PlaceNode(nodes, depth, layers, ins, outs, nodes[i]);
      placed := placed + [next];
    }
  }

  function Targets(edges: seq<Edge>): set<string> {
    set edge | edge in edges :: edge.target
  }

  function Sources(edges: seq<Edge>): set<string> {
    set edge | edge in edges :: edge.source
  }

  method CollectEnds(edges: seq<Edge>) returns (targets: set<string>, sources: set<string>)
    ensures targets == Targets(edges) && sources == Sources(edges)
  {
    targets, sources := {}, {};
    for i := 0 to |edges|
      invariant targets == Targets(edges[..i]) && sources == Sources(edges[..i])
    {
      assert edges[..i + 1] == edges[..i] + [edges[i]];
      targets, sources := targets + {edges[i].target}, sources + {edges[i].source};
    }
    assert edges[..|edges|] == edges;
  }

  /** Every node is drawn in node order, no two at one place; when the flow has no
      cycle, each node stands in the row numbered by its longest trail. */
  ghost predicate LaidOut(flow: Flow, placed: seq<Placed>) {
    && |placed| == |flow.nodes|
    && (exists depth :: InRows(flow.nodes, depth, placed))
    && (forall i | 0 <= i < |placed| :: Shows(flow, placed[i], flow.nodes[i]))
    && (forall i, j | 0 <= i < |placed| && 0 <= j < |placed| ::
      placed[i].position == placed[j].position <==> flow.nodes[i] == flow.nodes[j])
  }

  /** Each row is spread evenly around its centre, in node order. */
  ghost predicate InRows(nodes: seq<string>, depth: map<string, nat>, placed: seq<Placed>)
    requires |placed| == |nodes|
  {
    forall i | 0 <= i < |placed| :: placed[i].position == SpotOf(nodes, depth, nodes[i])
  }

  ghost predicate Shows(flow: Flow, placed: Placed, n: string) {
    && placed.id == n
    && placed.hasIncoming == (exists m :: Edge(m, n) in flow.edges)
    && placed.hasOutgoing == (exists m :: Edge(n, m) in flow.edges)
    && (forall inc | IsParentMap(inc, flow.edges) && Acyclic(inc) :: InLongestRow(inc, placed.position, n))
  }

  ghost predicate InLongestRow(inc: Children, position: Position, n: string) {
    exists d: nat :: Longest(inc, n, d) && position.y == 40 + d * 145
  }

  lemma ParentMapUnique(inc: Children, other: Children, edges: seq<Edge>)
    requires IsParentMap(inc, edges) && IsParentMap(other, edges)
    ensures inc == other
  {
    forall n ensures n in inc <==> n in other {
      assert Kids(inc, n) == ParentsOf(edges, n) && Kids(other, n) == ParentsOf(edges, n);
    }
    forall n | n in inc ensures inc[n] == other[n] {
      assert Kids(inc, n) == ParentsOf(edges, n) && Kids(other, n) == ParentsOf(edges, n);
    }
  }

  lemma ShowsNode(flow: Flow, inc: Children, nodes: seq<string>, depth: map<string, nat>, n: string)
    requires IsParentMap(inc, flow.edges) && n in depth
    requires Acyclic(inc) ==> Correct(inc, depth)
    ensures Shows(flow, Drawn(nodes, depth, Targets(flow.edges), Sources(flow.edges), n), n)
  {
    var placed := Drawn(nodes, depth, Targets(flow.edges), Sources(flow.edges), n);
    if n in Targets(flow.edges) {
      var edge :| edge in flow.edges && edge.target == n;
      assert Edge(edge.source, n) in flow.edges;
    }
    if n in Sources(flow.edges) {
      var edge :| edge in flow.edges && edge.source == n;
      assert Edge(n, edge.target) in flow.edges;
    }
    forall other | IsParentMap(other, flow.edges) && Acyclic(other) ensures InLongestRow(other, placed.position, n) {
      ParentMapUnique(inc, other, flow.edges);
      assert Longest(inc, n, depth[n]);
    }
  }

  method Project(flow: Flow) returns (placed: seq<Placed>)
    ensures LaidOut(flow, placed)
  {
    var inc := BuildIncoming(flow.edges);
    var targets, sources := CollectEnds(flow.edges);
    var table := new DepthTable();
    var nodes := flow.nodes;
    for i := 0 to |nodes|
      invariant forall j | 0 <= j < i :: nodes[j] in table.depth
      invariant Acyclic(inc) ==> Correct(inc, table.depth)
    {
      var _ := table.Visit(inc, nodes[i], {}, Acyclic(inc));
    }
    placed := PlaceNodes(nodes, table.depth, targets, sources);
    assert InRows(nodes, table.depth, placed);
    forall i | 0 <= i < |placed| ensures Shows(flow, placed[i], nodes[i]) {
      ShowsNode(flow, inc, nodes, table.depth, nodes[i]);
    }
    forall i, j | 0 <= i < |placed| && 0 <= j < |placed|
      ensures placed[i].position == placed[j].position <==> nodes[i] == nodes[j]
    {
      SpotsDistinct(nodes, table.depth, nodes[i], nodes[j]);
    }
  }

  /** In every drawing of a flow without cycles, each edge points downwards. */
  lemma EdgesPointDown(flow: Flow, inc: Children, placed: seq<Placed>, i: nat, j: nat)
    requires IsParentMap(inc, flow.edges) && Acyclic(inc) && LaidOut(flow, placed)
    requires i < |placed| && j < |placed| && Edge(flow.nodes[i], flow.nodes[j]) in flow.edges
    ensures placed[i].position.y + 145 <= placed[j].position.y
  {
    var m, n := flow.nodes[i], flow.nodes[j];
    assert Shows(flow, placed[i], m) && Shows(flow, placed[j], n);
    assert InLongestRow(inc, placed[i].position, m) && InLongestRow(inc, placed[j].position, n);
    var d: nat :| Longest(inc, m, d) && placed[i].position.y == 40 + d * 145;
    var e: nat :| Longest(inc, n, e) && placed[j].position.y == 40 + e * 145;
    ParentsExact(flow.edges, n, m);
    assert Kids(inc, n) == ParentsOf(flow.edges, n);
    EdgeDescends(inc, Edge(m, n), d, e);
  }

  // ----- the places within a row -----

  /** How many of the first k nodes stand at height y. */
  function InRow(placed: seq<Placed>, y: int, k: nat): nat
    requires k <= |placed|
  {
    if k == 0 then 0 else InRow(placed, y, k - 1) + if placed[k - 1].position.y == y then 1 else 0
  }

  lemma HeightAt(nodes: seq<string>, depth: map<string, nat>, n: string)
    ensures SpotOf(nodes, depth, n).y == Height(DepthOf(depth, n))
  {
  }

  function Height(layer: nat): int {
    40 + layer * 145
  }

  /** The place numbered from the left, from 0, of a row of so many nodes. */
  predicate IsPlace(x: int, peers: nat, left: nat) {
    if peers > 2 then x == 480 - (peers - 1) * 125 + left * 250 else x == 480 - (peers - 1) * 150 + left * 300
  }

  lemma SpotIs(peers: nat, index: nat, layer: nat)
    ensures IsPlace(Spot(peers, index, layer).x, peers, index)
  {
  }

  lemma {:induction false} RowCount(nodes: seq<string>, depth: map<string, nat>, placed: seq<Placed>, layer: nat,
                                    k: nat)
    requires |placed| == |nodes| && InRows(nodes, depth, placed) && k <= |nodes|
    ensures |Row(nodes[..k], depth, layer)| == InRow(placed, Height(layer), k)
  {
    if k > 0 {
      RowCount(nodes, depth, placed, layer, k - 1);
      assert nodes[..k][..k - 1] == nodes[..k - 1] && nodes[..k][k - 1] == nodes[k - 1];
      HeightAt(nodes, depth, nodes[k - 1]);
      SameLayer(DepthOf(depth, nodes[k - 1]), layer);
    }
  }

  lemma SameLayer(a: nat, b: nat)
    ensures Height(a) == Height(b) <==> a == b
  {
  }

  lemma {:induction false} RowPrefix(nodes: seq<string>, depth: map<string, nat>, layer: nat, k: nat)
    requires k < |nodes| && DepthOf(depth, nodes[k]) == layer
    ensures Row(nodes[..k], depth, layer) + [nodes[k]] <= Row(nodes, depth, layer)
  {
    var n := |nodes| - 1;
    if k < n {
      RowPrefix(nodes[..n], depth, layer, k);
      assert nodes[..n][..k] == nodes[..k];
    }
  }

  lemma {:induction false} IndexAfter(peers: seq<string>, before: seq<string>, n: string)
    requires before + [n] <= peers && n !in before
    ensures IndexOf(peers, n) == |before|
  {
    if before != [] {
      assert peers[0] == before[0];
      assert before[1..] + [n] <= peers[1..];
      IndexAfter(peers[1..], before[1..], n);
    }
  }

  /** Nodes of one row stand from left to right in node order, 250 apart where there
      are more than two of them and 300 apart otherwise, around 480. */
  lemma RowsAreSpread(flow: Flow, placed: seq<Placed>, i: nat)
    requires LaidOut(flow, placed) && NoDuplicates(flow.nodes) && i < |placed|
    ensures
      var y := placed[i].position.y;
      IsPlace(placed[i].position.x, InRow(placed, y, |placed|), InRow(placed, y, i))
  {
    var depth :| InRows(flow.nodes, depth, placed);
    var n := flow.nodes[i];
    HeightAt(flow.nodes, depth, n);
    RowIs(flow.nodes, depth, placed, DepthOf(depth, n));
    IndexIs(flow.nodes, depth, placed, i, Row(flow.nodes, depth, DepthOf(depth, n)));
    PlaceIs(flow.nodes, depth, n, Row(flow.nodes, depth, DepthOf(depth, n)));
  }

  lemma PlaceIs(nodes: seq<string>, depth: map<string, nat>, n: string, row: seq<string>)
    requires row == Row(nodes, depth, DepthOf(depth, n))
    ensures IsPlace(SpotOf(nodes, depth, n).x, |row|, IndexOf(row, n))
  {
    SpotIs(|row|, IndexOf(row, n), DepthOf(depth, n));
  }

  lemma RowIs(nodes: seq<string>, depth: map<string, nat>, placed: seq<Placed>, layer: nat)
    requires |placed| == |nodes| && InRows(nodes, depth, placed)
    ensures |Row(nodes, depth, layer)| == InRow(placed, Height(layer), |placed|)
  {
    RowCount(nodes, depth, placed, layer, |nodes|);
    assert nodes[..|nodes|] == nodes;
  }

  lemma IndexIs(nodes: seq<string>, depth: map<string, nat>, placed: seq<Placed>, i: nat, row: seq<string>)
    requires |placed| == |nodes| && InRows(nodes, depth, placed) && NoDuplicates(nodes) && i < |nodes|
    requires row == Row(nodes, depth, DepthOf(depth, nodes[i]))
    ensures IndexOf(row, nodes[i]) == InRow(placed, Height(DepthOf(depth, nodes[i])), i)
  {
    var layer := DepthOf(depth, nodes[i]);
    RowCount(nodes, depth, placed, layer, i);
    RowPrefix(nodes, depth, layer, i);
    NotEarlier(nodes, depth, layer, i);
    IndexAfter(row, Row(nodes[..i], depth, layer), nodes[i]);
  }

  lemma NotEarlier(nodes: seq<string>, depth: map<string, nat>, layer: nat, i: nat)
    requires NoDuplicates(nodes) && i < |nodes|
    ensures nodes[i] !in Row(nodes[..i], depth, layer)
  {
    RowExact(nodes[..i], depth, layer, nodes[i]);
  }
}
