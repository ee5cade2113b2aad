/** Depth-first traversal of a child map, and what it visits. */
module Traversal {

  type Children = map<string, seq<string>>

  function Kids(g: Children, id: string): seq<string> {
    if id in g then g[id] else []
  }

  function Elements(s: seq<string>): set<string> {
    set x | x in s
  }

  /** The parents that have not been visited yet. */
  function Left(g: Children, visited: seq<string>): nat {
    |g.Keys - Elements(visited)|
  }

  lemma SubsetSize(a: set<string>, b: set<string>)
    requires a <= b
    ensures |a| <= |b|
    ensures a != b ==> |a| < |b|
  {
    assert b == a + (b - a);
  }

  lemma LeftShrinks(g: Children, visited: seq<string>, more: seq<string>)
    requires visited <= more
    ensures Left(g, more) <= Left(g, visited)
    ensures (exists id :: id in g && id in more && id !in visited) ==> Left(g, more) < Left(g, visited)
  {
    var a, b := g.Keys - Elements(more), g.Keys - Elements(visited);
    assert forall x | x in visited :: x in more;
    SubsetSize(a, b);
    if id :| id in g && id in more && id !in visited {
      assert id in b && id !in a;
    }
  }

  /** The nodes visited so far, in visiting order, after visiting id as well. */
  function Visit(g: Children, id: string, visited: seq<string>): (r: seq<string>)
    ensures visited <= r
    decreases Left(g, visited), 0
  {
    if id in visited then visited
    else if id !in g then visited + [id]
    else
      LeftShrinks(g, visited, visited + [id]);
      VisitAll(g, g[id], visited + [id])
  }

  function VisitAll(g: Children, ids: seq<string>, visited: seq<string>): (r: seq<string>)
    ensures visited <= r
    decreases Left(g, visited), |ids|
  {
    if ids == [] then visited
    else
      var next := Visit(g, ids[0], visited);
      LeftShrinks(g, visited, next);
      VisitAll(g, ids[1..], next)
  }

  /** The closure `visit` of the validator, over the mutable visited set. */
  class Walk {
    var visited: seq<string>

    constructor ()
      ensures visited == []
    {
      visited := [];
    }

    method VisitFrom(g: Children, id: string)
      modifies this
      ensures visited == Visit(g, id, old(visited))
      decreases Left(g, visited), 0
    {
      if id in visited {
        return;
      }
      ghost var before := visited;
      visited := visited + [id];
      if id in g {
        LeftShrinks(g, before, visited);
        ghost var start := visited;
        var kids := g[id];
        for i := 0 to |kids|
          invariant start <= visited
          invariant VisitAll(g, kids[i..], visited) == VisitAll(g, kids, start)
        {
          LeftShrinks(g, start, visited);
          VisitFrom(g, kids[i]);
          assert kids[i..][1..] == kids[i + 1..];
        }
      }
    }
  }

  // ----- what is visited -----

  predicate NoDuplicates(s: seq<string>) {
    forall i, j | 0 <= i < j < |s| :: s[i] != s[j]
  }

  /** p leads from its first node to its last, each node a child of the one before. */
  ghost predicate IsPath(g: Children, p: seq<string>) {
    p != [] && forall i | 0 <= i < |p| - 1 :: p[i + 1] in Kids(g, p[i])
  }

  ghost predicate PathBetween(g: Children, p: seq<string>, from: string, to: string) {
    IsPath(g, p) && p[0] == from && p[|p| - 1] == to
  }

  ghost predicate Reaches(g: Children, from: string, to: string) {
    exists p :: PathBetween(g, p, from, to)
  }

  lemma ReachesSelf(g: Children, id: string)
    ensures Reaches(g, id, id)
  {
    assert PathBetween(g, [id], id, id);
  }

  lemma ReachesVia(g: Children, id: string, kid: string, n: string)
    requires kid in Kids(g, id) && Reaches(g, kid, n)
    ensures Reaches(g, id, n)
  {
    var p :| PathBetween(g, p, kid, n);
    var q := [id] + p;
    forall i | 0 <= i < |q| - 1 ensures q[i + 1] in Kids(g, q[i]) {
      if i > 0 {
        assert q[i] == p[i - 1] && q[i + 1] == p[i];
      }
    }
    assert PathBetween(g, q, id, n);
  }

  /** Every node added between visited and r has all its children in r. */
  ghost predicate Closed(g: Children, visited: seq<string>, r: seq<string>) {
    forall n, k | n in r && n !in visited && k in Kids(g, n) :: k in r
  }

  lemma ClosedBefore(g: Children, visited: seq<string>, id: string, r: seq<string>)
    requires Closed(g, visited + [id], r) && forall k | k in Kids(g, id) :: k in r
    ensures Closed(g, visited, r)
  {
    forall n, k | n in r && n !in visited && k in Kids(g, n) ensures k in r {
      assert n == id || n !in visited + [id];
    }
  }

  lemma {:induction false} VisitCloses(g: Children, id: string, visited: seq<string>)
    requires NoDuplicates(visited)
    ensures NoDuplicates(Visit(g, id, visited))
    ensures id in Visit(g, id, visited) && Closed(g, visited, Visit(g, id, visited))
    decreases Left(g, visited), 0
  {
    if id !in visited {
      var entered := visited + [id];
      if id in g {
        LeftShrinks(g, visited, entered);
        VisitAllCloses(g, g[id], entered);
        var r := VisitAll(g, g[id], entered);
        assert r[|visited|] == id;
        ClosedBefore(g, visited, id, r);
      } else {
        ClosedBefore(g, visited, id, entered);
      }
    }
  }

  lemma {:induction false} VisitAllCloses(g: Children, ids: seq<string>, visited: seq<string>)
    requires NoDuplicates(visited)
    ensures NoDuplicates(VisitAll(g, ids, visited))
    ensures forall x | x in ids :: x in VisitAll(g, ids, visited)
    ensures Closed(g, visited, VisitAll(g, ids, visited))
    decreases Left(g, visited), |ids|
  {
    if ids != [] {
      var next := Visit(g, ids[0], visited);
      VisitCloses(g, ids[0], visited);
      LeftShrinks(g, visited, next);
      VisitAllCloses(g, ids[1..], next);
      ClosedTwice(g, visited, next, VisitAll(g, ids[1..], next));
      assert forall x | x in ids :: x == ids[0] || x in ids[1..];
    }
  }

  lemma ClosedTwice(g: Children, visited: seq<string>, next: seq<string>, r: seq<string>)
    requires next <= r && Closed(g, visited, next) && Closed(g, next, r)
    ensures Closed(g, visited, r) && forall x | x in next :: x in r
  {
    forall n, k | n in r && n !in visited && k in Kids(g, n) ensures k in r {
      assert n in next ==> k in next;
    }
  }

  lemma {:induction false} VisitReached(g: Children, id: string, visited: seq<string>, n: string)
    requires n in Visit(g, id, visited) && n !in visited
    ensures Reaches(g, id, n)
    decreases Left(g, visited), 0
  {
    ReachesSelf(g, id);
    if n != id {
      LeftShrinks(g, visited, visited + [id]);
      var kid := VisitAllReached(g, g[id], visited + [id], n);
      ReachesVia(g, id, kid, n);
    }
  }

  lemma {:induction false} VisitAllReached(g: Children, ids: seq<string>, visited: seq<string>, n: string)
    returns (from: string)
    requires n in VisitAll(g, ids, visited) && n !in visited
    ensures from in ids && Reaches(g, from, n)
    decreases Left(g, visited), |ids|
  {
    var next := Visit(g, ids[0], visited);
    if n in next {
      VisitReached(g, ids[0], visited, n);
      from := ids[0];
    } else {
      LeftShrinks(g, visited, next);
      from := VisitAllReached(g, ids[1..], next, n);
    }
  }

  lemma {:induction false} ClosedHoldsPath(g: Children, r: seq<string>, p: seq<string>)
    requires IsPath(g, p) && p[0] in r && Closed(g, [], r)
    ensures p[|p| - 1] in r
    decreases |p|
  {
    if |p| > 1 {
      assert p[1] in Kids(g, p[0]);
      ClosedHoldsPath(g, r, p[1..]);
    }
  }

  /** From an empty visited set the walk visits exactly the reachable nodes, each
      once, on any graph, cyclic ones included. */
  lemma VisitExact(g: Children, root: string)
    ensures NoDuplicates(Visit(g, root, []))
    ensures forall n :: n in Visit(g, root, []) <==> Reaches(g, root, n)
  {
    var r := Visit(g, root, []);
    VisitCloses(g, root, []);
    forall n ensures n in r <==> Reaches(g, root, n) {
      if n in r {
        VisitReached(g, root, [], n);
      }
      if Reaches(g, root, n) {
        var p :| PathBetween(g, p, root, n);
        ClosedHoldsPath(g, r, p);
      }
    }
  }

  // ----- forests -----

  /** No node has two parents, and none is listed twice by its parent. */
  ghost predicate OneParent(g: Children) {
    && (forall p, q, k | k in Kids(g, p) && k in Kids(g, q) :: p == q)
    && (forall p :: NoDuplicates(Kids(g, p)))
  }

  ghost predicate Parentless(g: Children, n: string) {
    forall p :: n !in Kids(g, p)
  }

  /** Where every node has at most one parent, two paths that start at parentless
      nodes and end at the same node are the same path. */
  lemma {:induction false} PathUnique(g: Children, p: seq<string>, q: seq<string>)
    requires OneParent(g) && IsPath(g, p) && IsPath(g, q)
    requires Parentless(g, p[0]) && Parentless(g, q[0]) && p[|p| - 1] == q[|q| - 1]
    ensures p == q
    decreases |p|
  {
    LastEdge(g, p);
    LastEdge(g, q);
    if |p| > 1 {
      assert p[|p| - 2] == q[|q| - 2];
      PathUnique(g, p[..|p| - 1], q[..|q| - 1]);
      assert p == p[..|p| - 1] + [p[|p| - 1]];
      assert q == q[..|q| - 1] + [q[|q| - 1]];
    }
  }

  lemma LastEdge(g: Children, p: seq<string>)
    requires IsPath(g, p)
    ensures |p| > 1 ==> p[|p| - 1] in Kids(g, p[|p| - 2]) && IsPath(g, p[..|p| - 1])
  {
    if |p| > 1 {
      assert p[|p| - 2 + 1] in Kids(g, p[|p| - 2]);
    }
  }

  /** The nodes reached from a parentless root form a tree: one path to each. */
  lemma ReachedPartIsTree(g: Children, root: string, n: string, p: seq<string>, q: seq<string>)
    requires OneParent(g) && Parentless(g, root)
    requires PathBetween(g, p, root, n) && PathBetween(g, q, root, n)
    ensures p == q
  {
    PathUnique(g, p, q);
  }

  /** Trees of different parentless roots have no node in common. */
  lemma TreesDisjoint(g: Children, a: string, b: string, n: string)
    requires OneParent(g) && Parentless(g, a) && Parentless(g, b) && a != b
    ensures !(n in Visit(g, a, []) && n in Visit(g, b, []))
  {
    VisitExact(g, a);
    VisitExact(g, b);
    if n in Visit(g, a, []) && n in Visit(g, b, []) {
      var p :| PathBetween(g, p, a, n);
      var q :| PathBetween(g, q, b, n);
      PathUnique(g, p, q);
    }
  }

  // ----- the order of a walk -----

  /** Nothing that is reached from id is in s. */
  ghost predicate Misses(g: Children, id: string, s: seq<string>) {
    forall n | n in s :: !Reaches(g, id, n)
  }

  lemma KidsMiss(g: Children, id: string, s: seq<string>)
    requires Misses(g, id, s)
    ensures forall i | 0 <= i < |Kids(g, id)| :: Misses(g, Kids(g, id)[i], s)
  {
    forall i, n | 0 <= i < |Kids(g, id)| && n in s ensures !Reaches(g, Kids(g, id)[i], n) {
      if Reaches(g, Kids(g, id)[i], n) {
        ReachesVia(g, id, Kids(g, id)[i], n);
      }
    }
  }

  /** What a walk cannot reach stays in front of it and changes nothing. */
  lemma {:induction false} VisitBehind(g: Children, id: string, before: seq<string>, visited: seq<string>)
    requires Misses(g, id, before)
    ensures Visit(g, id, before + visited) == before + Visit(g, id, visited)
    decreases Left(g, visited), 0
  {
    ReachesSelf(g, id);
    if id !in visited {
      assert before + visited + [id] == before + (visited + [id]);
      if id in g {
        LeftShrinks(g, visited, visited + [id]);
        KidsMiss(g, id, before);
        assert Kids(g, id) == g[id];
        VisitAllBehind(g, g[id], before, visited + [id]);
      }
    }
  }

  lemma {:induction false} VisitAllBehind(g: Children, ids: seq<string>, before: seq<string>, visited: seq<string>)
    requires forall i | 0 <= i < |ids| :: Misses(g, ids[i], before)
    ensures VisitAll(g, ids, before + visited) == before + VisitAll(g, ids, visited)
    decreases Left(g, visited), |ids|
  {
    if ids != [] {
      VisitBehind(g, ids[0], before, visited);
      var next := Visit(g, ids[0], visited);
      LeftShrinks(g, visited, next);
      VisitAllBehind(g, ids[1..], before, next);
    }
  }

  /** The walks from each node of a list, one after the other. */
  function Walks(g: Children, ids: seq<string>): seq<string> {
    if ids == [] then [] else Visit(g, ids[0], []) + Walks(g, ids[1..])
  }

  /** No node is reached from two places of the list. */
  ghost predicate Apart(g: Children, ids: seq<string>) {
    forall i, j, n | 0 <= i < j < |ids| :: !(Reaches(g, ids[i], n) && Reaches(g, ids[j], n))
  }

  lemma {:induction false} VisitAllApart(g: Children, ids: seq<string>, visited: seq<string>)
    requires Apart(g, ids) && forall i | 0 <= i < |ids| :: Misses(g, ids[i], visited)
    ensures VisitAll(g, ids, visited) == visited + Walks(g, ids)
    decreases |ids|
  {
    if ids != [] {
      var first, rest := Visit(g, ids[0], []), ids[1..];
      assert visited + [] == visited;
      VisitBehind(g, ids[0], visited, []);
      VisitExact(g, ids[0]);
      forall i | 0 <= i < |rest| ensures Misses(g, rest[i], visited + first) {
        assert rest[i] == ids[i + 1] && Misses(g, ids[i + 1], visited);
        forall n | n in visited + first ensures !Reaches(g, rest[i], n) {
          if n in first {
            assert Reaches(g, ids[0], n);
          }
        }
      }
      ApartTail(g, ids);
      VisitAllApart(g, rest, visited + first);
      assert visited + first + Walks(g, rest) == visited + (first + Walks(g, rest));
    }
  }

  lemma ApartTail(g: Children, ids: seq<string>)
    requires ids != [] && Apart(g, ids)
    ensures Apart(g, ids[1..])
  {
    var rest := ids[1..];
    forall i, j, n | 0 <= i < j < |rest| ensures !(Reaches(g, rest[i], n) && Reaches(g, rest[j], n)) {
      assert rest[i] == ids[i + 1] && rest[j] == ids[j + 1];
    }
  }

  /** There is one path from id to each node below it. */
  ghost predicate TreeBelow(g: Children, id: string) {
    forall p, q, n | PathBetween(g, p, id, n) && PathBetween(g, q, id, n) :: p == q
  }

  lemma RootedTree(g: Children, root: string)
    requires OneParent(g) && Parentless(g, root)
    ensures TreeBelow(g, root)
  {
    forall p, q, n | PathBetween(g, p, root, n) && PathBetween(g, q, root, n) ensures p == q {
      ReachedPartIsTree(g, root, n, p, q);
    }
  }

  lemma Extend(g: Children, id: string, p: seq<string>, n: string)
    requires p != [] && p[0] in Kids(g, id) && PathBetween(g, p, p[0], n)
    ensures PathBetween(g, [id] + p, id, n)
  {
    var q := [id] + p;
    forall i | 0 <= i < |q| - 1 ensures q[i + 1] in Kids(g, q[i]) {
      if i > 0 {
        assert q[i] == p[i - 1] && q[i + 1] == p[i];
      }
    }
  }

  lemma SameKid(g: Children, id: string, p: seq<string>, q: seq<string>, n: string)
    requires TreeBelow(g, id) && p != [] && q != [] && p[0] in Kids(g, id) && q[0] in Kids(g, id)
    requires PathBetween(g, p, p[0], n) && PathBetween(g, q, q[0], n)
    ensures p[0] == q[0]
  {
    Extend(g, id, p, n);
    Extend(g, id, q, n);
    assert ([id] + p)[1] == p[0] && ([id] + q)[1] == q[0];
  }

  lemma NoWayBack(g: Children, id: string, p: seq<string>)
    requires TreeBelow(g, id) && IsPath(g, p) && p[0] in Kids(g, id)
    ensures p[|p| - 1] != id
  {
    if p[|p| - 1] == id {
      Extend(g, id, p, id);
      OnePathToSelf(g, id, [id] + p);
    }
  }

  lemma OnePathToSelf(g: Children, id: string, p: seq<string>)
    requires TreeBelow(g, id) && PathBetween(g, p, id, id)
    ensures |p| == 1
  {
    assert PathBetween(g, [id], id, id);
  }

  lemma KidsApart(g: Children, id: string)
    requires TreeBelow(g, id) && NoDuplicates(Kids(g, id))
    ensures Apart(g, Kids(g, id)) && forall i | 0 <= i < |Kids(g, id)| :: Misses(g, Kids(g, id)[i], [id])
  {
    var kids := Kids(g, id);
    forall i, j, n | 0 <= i < j < |kids| ensures !(Reaches(g, kids[i], n) && Reaches(g, kids[j], n)) {
      if Reaches(g, kids[i], n) && Reaches(g, kids[j], n) {
        var p :| PathBetween(g, p, kids[i], n);
        var q :| PathBetween(g, q, kids[j], n);
        SameKid(g, id, p, q, n);
      }
    }
    forall i | 0 <= i < |kids| ensures !Reaches(g, kids[i], id) {
      if Reaches(g, kids[i], id) {
        var p :| PathBetween(g, p, kids[i], id);
        NoWayBack(g, id, p);
      }
    }
  }

  lemma TreeBelowKid(g: Children, id: string, kid: string)
    requires TreeBelow(g, id) && kid in Kids(g, id)
    ensures TreeBelow(g, kid)
  {
    forall p, q, n | PathBetween(g, p, kid, n) && PathBetween(g, q, kid, n) ensures p == q {
      Extend(g, id, p, n);
      Extend(g, id, q, n);
      assert p == ([id] + p)[1..] && q == ([id] + q)[1..];
    }
  }

  /** A walk over a tree lists the root and then, child by child in their order, the
      walk over each child's own tree: the visited set never cuts anything off. */
  lemma WalkIsPreorder(g: Children, id: string)
    requires TreeBelow(g, id) && NoDuplicates(Kids(g, id))
    ensures Visit(g, id, []) == [id] + Walks(g, Kids(g, id))
    ensures forall i | 0 <= i < |Kids(g, id)| :: TreeBelow(g, Kids(g, id)[i])
  {
    KidsApart(g, id);
    if id in g {
      VisitAllApart(g, g[id], [id]);
      assert [] + [id] == [id];
    }
    forall i | 0 <= i < |Kids(g, id)| ensures TreeBelow(g, Kids(g, id)[i]) {
      TreeBelowKid(g, id, Kids(g, id)[i]);
    }
  }

  // ----- locality -----

  /** Nothing outside the set `added` has a child in it, and g and h agree there. */
  ghost predicate AgreeOutside(g: Children, h: Children, added: set<string>) {
    && (forall n, k | n !in added && k in Kids(g, n) :: k !in added)
    && (forall n | n !in added :: Kids(h, n) == Kids(g, n) && (n in g <==> n in h))
  }

  /** A walk depends only on the children of what it reaches. */
  lemma {:induction false} VisitLocal(g: Children, h: Children, id: string, visited: seq<string>, added: set<string>)
    requires id !in added && AgreeOutside(g, h, added)
    ensures Visit(g, id, visited) == Visit(h, id, visited)
    decreases Left(g, visited), 0
  {
    if id !in visited && id in g {
      assert Kids(g, id) == g[id] && Kids(h, id) == h[id];
      LeftShrinks(g, visited, visited + [id]);
      VisitAllLocal(g, h, g[id], visited + [id], added);
    }
  }

  lemma {:induction false} VisitAllLocal(g: Children, h: Children, ids: seq<string>, visited: seq<string>,
                                         added: set<string>)
    requires (forall x | x in ids :: x !in added) && AgreeOutside(g, h, added)
    ensures VisitAll(g, ids, visited) == VisitAll(h, ids, visited)
    decreases Left(g, visited), |ids|
  {
    if ids != [] {
      VisitLocal(g, h, ids[0], visited, added);
      var next := Visit(g, ids[0], visited);
      LeftShrinks(g, visited, next);
      VisitAllLocal(g, h, ids[1..], next, added);
    }
  }
}
