/** Shortest paths from node 0 of a weighted graph, with a number standing for infinity. */
module Dijkstra {
  import opened Basics

  const INFINITY: nat := 9999

  /** Row x, column y: the weight of the edge from x to y, or INFINITY for none. */
  type Graph = seq<seq<nat>>

  ghost predicate IsGraph(g: Graph) {
    && 1 <= |g| <= INFINITY
    && forall x :: 0 <= x < |g| ==> |g[x]| == |g| && forall y :: 0 <= y < |g| ==> g[x][y] <= INFINITY
  }

  ghost predicate IsEdge(g: Graph, x: int, y: int) {
    0 <= x < |g| && 0 <= y < |g[x]| && g[x][y] != INFINITY
  }

  ghost predicate IsPath(g: Graph, p: seq<int>) {
    && p != [] && p[0] == 0 && 0 <= p[|p| - 1] < |g|
    && forall i :: 0 <= i < |p| - 1 ==> IsEdge(g, p[i], p[i + 1])
  }

  ghost function Weight(g: Graph, p: seq<int>): nat
    requires IsPath(g, p)
  {
    if |p| == 1 then 0 else Weight(g, p[..|p| - 1]) + Cost(g, p[|p| - 2], p[|p| - 1])
  }

  function Cost(g: Graph, x: int, y: int): nat {
    if 0 <= x < |g| && 0 <= y < |g[x]| then g[x][y] else 0
  }

  // ----- what the loops keep

  /** The nodes visited so far, in order; the distances and predecessors found. */
  datatype Progress = Progress(dist: seq<int>, prev: seq<int>, visited: seq<int>)

  ghost predicate Sized(g: Graph, s: Progress) {
    && |s.dist| == |s.prev| == |g|
    && (forall v :: 0 <= v < |g| ==> 0 <= s.dist[v] <= INFINITY)
    && (forall i :: 0 <= i < |s.visited| ==> 0 <= s.visited[i] < |g|)
    && (forall i, j :: 0 <= i < j < |s.visited| ==> s.visited[i] != s.visited[j])
  }

  /** Visited nodes are no farther than the others, and no edge out of a visited node offers a shorter way. */
  ghost predicate Nearest(g: Graph, s: Progress)
    requires IsGraph(g) && Sized(g, s)
  {
    && s.dist[0] == 0
    && (forall x :: x in s.visited ==> s.dist[x] < INFINITY)
    && (forall x, y :: x in s.visited && 0 <= y < |g| && y !in s.visited ==> s.dist[x] <= s.dist[y])
    && (forall x, y :: x in s.visited && IsEdge(g, x, y) ==> s.dist[y] <= s.dist[x] + g[x][y])
  }

  /** The predecessor of a reached node was visited, before the node itself, and its edge makes up the distance. */
  ghost predicate Linked(g: Graph, s: Progress, v: int)
    requires Sized(g, s) && 0 <= v < |g|
  {
    if v == 0 || s.dist[v] == INFINITY then s.prev[v] == INFINITY
    else s.prev[v] in s.visited && IsEdge(g, s.prev[v], v) && s.dist[v] == s.dist[s.prev[v]] + g[s.prev[v]][v]
  }

  ghost predicate InOrder(g: Graph, s: Progress)
    requires Sized(g, s)
  {
    forall i :: 0 <= i < |s.visited| && s.visited[i] != 0 ==> IsVisitedBefore(s, s.prev[s.visited[i]], i)
  }

  ghost predicate IsVisitedBefore(s: Progress, v: int, bound: int) {
    exists i :: 0 <= i < bound && i < |s.visited| && s.visited[i] == v
  }

  ghost predicate Settled(g: Graph, s: Progress) {
    && IsGraph(g) && Sized(g, s) && Nearest(g, s) && InOrder(g, s)
    && forall v :: 0 <= v < |g| ==> Linked(g, s, v)
  }

  lemma StartIsSettled(g: Graph, s: Progress)
    requires IsGraph(g) && |s.dist| == |s.prev| == |g| && s.visited == []
    requires forall v :: 0 <= v < |g| ==> s.dist[v] == (if v == 0 then 0 else INFINITY) && s.prev[v] == INFINITY
    ensures Settled(g, s)
  {
  }

  /** The distance a node gets when u is visited. */
  function Relaxed(g: Graph, dist: seq<int>, u: int, v: int): int
    requires 0 <= u < |g| && |dist| == |g| && 0 <= v < |g[u]| && |g[u]| == |g|
  {
    if g[u][v] != INFINITY && dist[u] + g[u][v] < dist[v] then dist[u] + g[u][v] else dist[v]
  }

  /** One visit: the others may come nearer through u. */
  ghost predicate Visits(g: Graph, s: Progress, s': Progress, u: int)
    requires IsGraph(g) && Sized(g, s)
  {
    && 0 <= u < |g| && u !in s.visited && s'.visited == s.visited + [u] && |s'.dist| == |s'.prev| == |g|
    && forall v :: 0 <= v < |g| ==>
      if v in s.visited || v == u || Relaxed(g, s.dist, u, v) == s.dist[v]
      then s'.dist[v] == s.dist[v] && s'.prev[v] == s.prev[v]
      else s'.dist[v] == Relaxed(g, s.dist, u, v) && s'.prev[v] == u
  }

  ghost predicate IsNearestUnvisited(g: Graph, s: Progress, u: int)
    requires Sized(g, s)
  {
    && 0 <= u < |g| && u !in s.visited && s.dist[u] < INFINITY
    && forall y :: 0 <= y < |g| && y !in s.visited ==> s.dist[u] <= s.dist[y]
  }

  lemma VisitFacts(g: Graph, s: Progress, s': Progress, u: int)
    requires Settled(g, s) && IsNearestUnvisited(g, s, u) && Visits(g, s, s', u)
    ensures Sized(g, s') && s'.dist[0] == 0
    ensures forall x :: x in s'.visited <==> x in s.visited || x == u
    ensures forall x :: x in s'.visited ==> s'.dist[x] == s.dist[x] <= s.dist[u]
    ensures forall y :: 0 <= y < |g| ==> s'.dist[y] <= s.dist[y]
    ensures forall y :: 0 <= y < |g| && y !in s'.visited ==> s.dist[u] <= s'.dist[y] <= Relaxed(g, s.dist, u, y)
  {
  }

  lemma VisitKeepsNearest(g: Graph, s: Progress, s': Progress, u: int)
    requires Settled(g, s) && IsNearestUnvisited(g, s, u) && Visits(g, s, s', u)
    ensures Sized(g, s') && Nearest(g, s')
  {
    hide Visits, Linked, InOrder;
    VisitFacts(g, s, s', u);
    forall x, y | x in s'.visited && IsEdge(g, x, y) ensures s'.dist[y] <= s'.dist[x] + g[x][y] {
      if x == u && y !in s'.visited { assert s'.dist[y] <= Relaxed(g, s.dist, u, y); }
    }
  }

  lemma VisitKeepsOrder(g: Graph, s: Progress, s': Progress, u: int)
    requires Settled(g, s) && IsNearestUnvisited(g, s, u) && Visits(g, s, s', u) && Sized(g, s')
    ensures InOrder(g, s')
  {
    hide Nearest, IsEdge;
    forall i | 0 <= i < |s'.visited| && s'.visited[i] != 0 ensures IsVisitedBefore(s', s'.prev[s'.visited[i]], i) {
      assert Linked(g, s, u);
      var p := s.prev[s'.visited[i]];
      if i < |s.visited| {
        assert IsVisitedBefore(s, p, i);
        var k :| 0 <= k < i && s.visited[k] == p;
        assert s'.visited[k] == p;
      } else {
        var k :| 0 <= k < i && s.visited[k] == p;
        assert s'.visited[k] == p;
      }
    }
  }

  lemma VisitKeepsLinks(g: Graph, s: Progress, s': Progress, u: int)
    requires Settled(g, s) && IsNearestUnvisited(g, s, u) && Visits(g, s, s', u) && Sized(g, s')
    ensures forall v :: 0 <= v < |g| ==> Linked(g, s', v)
  {
    hide InOrder;
    assert u in s'.visited;
    forall v | 0 <= v < |g| ensures Linked(g, s', v) {
      assert Linked(g, s, v);
    }
  }

  lemma VisitKeepsSettled(g: Graph, s: Progress, s': Progress, u: int)
    requires Settled(g, s) && IsNearestUnvisited(g, s, u) && Visits(g, s, s', u)
    ensures Settled(g, s')
  {
    hide Nearest, InOrder, Linked, Visits, IsNearestUnvisited;
    VisitKeepsNearest(g, s, s', u);
    VisitKeepsOrder(g, s, s', u);
    VisitKeepsLinks(g, s, s', u);
  }

  // ----- what it means

  /** No path is shorter than the distance found, once nothing is left to visit. */
  lemma {:induction false} NoShorterPath(g: Graph, s: Progress, p: seq<int>)
    requires Settled(g, s) && IsPath(g, p)
    requires forall v :: 0 <= v < |g| && v !in s.visited ==> s.dist[v] == INFINITY
    ensures s.dist[p[|p| - 1]] <= Weight(g, p)
    decreases |p|
  {
    if |p| > 1 {
      var init := p[..|p| - 1];
      assert IsEdge(g, p[|p| - 2], p[|p| - 2 + 1]);
      forall i | 0 <= i < |init| - 1 ensures IsEdge(g, init[i], init[i + 1]) {
        assert IsEdge(g, p[i], p[i + 1]);
      }
      NoShorterPath(g, s, init);
    }
  }

  predicate IsPredecessor(prev: seq<int>, x: int, y: int) {
    0 <= y < |prev| && prev[y] == x
  }

  /** A path from node 0 to v made of predecessors, whose weight is the distance of v. */
  ghost predicate LeadsBack(g: Graph, dist: seq<int>, prev: seq<int>, p: seq<int>, v: int) {
    && |dist| == |prev| == |g| && 0 <= v < |g| && IsPath(g, p) && p[|p| - 1] == v && Weight(g, p) == dist[v]
    && forall i :: 0 <= i < |p| - 1 ==> IsPredecessor(prev, p[i], p[i + 1])
  }

  lemma ExtendTrail(g: Graph, s: Progress, init: seq<int>, u: int, v: int)
    requires LeadsBack(g, s.dist, s.prev, init, u)
    requires 0 <= v < |g| && s.prev[v] == u && IsEdge(g, u, v) && s.dist[v] == s.dist[u] + g[u][v]
    ensures LeadsBack(g, s.dist, s.prev, init + [v], v)
  {
    var p := init + [v];
    forall k | 0 <= k < |p| - 1 ensures IsEdge(g, p[k], p[k + 1]) && IsPredecessor(s.prev, p[k], p[k + 1]) {
      if k < |init| - 1 { assert IsEdge(g, init[k], init[k + 1]) && IsPredecessor(s.prev, init[k], init[k + 1]); }
    }
    assert p[..|p| - 1] == init;
  }

  lemma {:induction false} TrailExists(g: Graph, s: Progress, v: int, bound: nat) returns (p: seq<int>)
    requires Settled(g, s) && 0 <= v < |g| && s.dist[v] < INFINITY && bound <= |s.visited|
    requires v == 0 || IsVisitedBefore(s, s.prev[v], bound)
    ensures LeadsBack(g, s.dist, s.prev, p, v)
    decreases bound
  {
    hide LeadsBack, Nearest;
    assert Linked(g, s, v);
    if v == 0 {
      p := [0];
      SourceLeadsBack(g, s);
    } else {
      var u := s.prev[v];
      var i :| 0 <= i < bound && s.visited[i] == u;
      var init := TrailExists(g, s, u, i);
      ExtendTrail(g, s, init, u, v);
      p := init + [v];
    }
  }

  lemma SourceLeadsBack(g: Graph, s: Progress)
    requires Settled(g, s)
    ensures LeadsBack(g, s.dist, s.prev, [0], 0)
  {
  }

  /** What the loops leave when nothing is left to visit. */
  lemma ReachedLeadBack(g: Graph, s: Progress)
    requires Settled(g, s)
    ensures forall v :: 0 <= v < |g| && s.dist[v] < INFINITY ==> exists p :: LeadsBack(g, s.dist, s.prev, p, v)
    ensures forall v :: 0 <= v < |g| && s.dist[v] == INFINITY ==> s.prev[v] == INFINITY
  {
    forall v | 0 <= v < |g| && s.dist[v] < INFINITY ensures exists p :: LeadsBack(g, s.dist, s.prev, p, v) {
      assert Linked(g, s, v);
      var p := TrailExists(g, s, v, |s.visited|);
    }
    forall v | 0 <= v < |g| && s.dist[v] == INFINITY ensures s.prev[v] == INFINITY {
      assert Linked(g, s, v);
    }
  }

  // ----- the program

  /**
   * Every distance is the smaller of INFINITY and the least weight of a path from node 0, and the predecessors of a
   * reached node lead back to node 0 along a path of exactly that weight.
   */
  ghost predicate AreShortest(g: Graph, dist: seq<int>, prev: seq<int>) {
    && |dist| == |prev| == |g|
    && (forall v :: 0 <= v < |g| ==> 0 <= dist[v] <= INFINITY)
    && (forall p :: IsPath(g, p) ==> dist[p[|p| - 1]] <= Weight(g, p))
    && (forall v :: 0 <= v < |g| && dist[v] < INFINITY ==> exists p :: LeadsBack(g, dist, prev, p, v))
    && (forall v :: 0 <= v < |g| && dist[v] == INFINITY ==> prev[v] == INFINITY)
  }

  /** Main result: the program computes the shortest distances, also where part of the graph cannot be reached. */
  method ShortestPaths(g: Graph) returns (dist: array<int>, prev: array<int>)
    requires IsGraph(g)
    ensures AreShortest(g, dist[..], prev[..])
  {
    var n := |g|;
    dist := new int[n](_ => INFINITY);
    prev := new int[n](_ => INFINITY);
    var q := new int[n](i => i);
    dist[0] := 0;
    var u: int := *;
    ghost var visited: seq<int> := [];
    BeforeLoop(g, Progress(dist[..], prev[..], visited), q[..], u);
    hide *;
    for i := 0 to n
      invariant InLoop(g, Progress(dist[..], prev[..], visited), q[..], u, i)
    {
      u, visited := Round(g, dist, prev, q, u, i, visited);
    }
    AfterLoop(g, Progress(dist[..], prev[..], visited), q[..], u);
  }

  /** One round: visit the nearest node left. */
  method Round(g: Graph, dist: array<int>, prev: array<int>, q: array<int>, u0: int, ghost i: int,
               ghost visited0: seq<int>)
    returns (u: int, ghost visited: seq<int>)
    requires dist != prev && dist != q && prev != q && 0 <= i < |g|
    requires InLoop(g, Progress(dist[..], prev[..], visited0), q[..], u0, i)
    modifies dist, prev, q
    ensures InLoop(g, Progress(dist[..], prev[..], visited), q[..], u, i + 1)
  {
    hide *;
    ghost var q0, s0 := q[..], Progress(dist[..], prev[..], visited0);
    LoopFacts(g, s0, q0, u0, i);
    var found;
    found, u := FindNearest(dist, q, u0);
    LoopChoice(g, s0, q0, u0, i, found, u);
    q[u] := INFINITY;
    Relax(g, u, dist, prev, q);
    visited := if found then visited0 + [u] else visited0;
    LoopStep(g, s0, Progress(dist[..], prev[..], visited), q0, q[..], u0, u, i, found);
  }

  /**
   * What holds before the i-th round: either every round visited a node, or the nodes that are left are all at
   * INFINITY.
   */
  ghost predicate InLoop(g: Graph, s: Progress, q: seq<int>, u: int, i: int) {
    && Settled(g, s) && |q| == |g| && |s.visited| <= i
    && (forall v :: 0 <= v < |g| ==> q[v] == if v in s.visited then INFINITY as int else v)
    && (i > 0 ==> u in s.visited)
    && (|s.visited| == i || forall v :: 0 <= v < |g| && v !in s.visited ==> s.dist[v] == INFINITY)
  }

  lemma BeforeLoop(g: Graph, s: Progress, q: seq<int>, u: int)
    requires IsGraph(g) && |s.dist| == |s.prev| == |g| == |q| && s.visited == []
    requires forall v :: 0 <= v < |g| ==>
      s.dist[v] == (if v == 0 then 0 else INFINITY) && s.prev[v] == INFINITY && q[v] == v
    ensures InLoop(g, s, q, u, 0)
  {
    StartIsSettled(g, s);
  }

  lemma LoopFacts(g: Graph, s: Progress, q: seq<int>, u: int, i: int)
    requires InLoop(g, s, q, u, i)
    ensures |s.dist| == |s.prev| == |q| == |g| && IsGraph(g) && Sized(g, s) && Settled(g, s)
  {
  }

  ghost predicate IsChoice(dist: seq<int>, q: seq<int>, u0: int, found: bool, u: int) {
    if found then 0 <= u < |dist| == |q| && q[u] != INFINITY && dist[u] < INFINITY
                  && forall y :: 0 <= y < |dist| && q[y] != INFINITY ==> dist[u] <= dist[y]
    else u == u0 && |dist| == |q| && forall y :: 0 <= y < |dist| && q[y] != INFINITY ==> dist[y] >= INFINITY
  }

  lemma LoopChoice(g: Graph, s: Progress, q: seq<int>, u0: int, i: int, found: bool, u: int)
    requires InLoop(g, s, q, u0, i) && i < |g| && IsChoice(s.dist, q, u0, found, u)
    ensures 0 <= u < |g| && (found ==> IsNearestUnvisited(g, s, u)) && (!found ==> u in s.visited)
  {
    if i == 0 { assert q[0] == 0; }
  }

  ghost predicate IsRelaxed(g: Graph, dist: seq<int>, prev: seq<int>, q: seq<int>, u: int, dist': seq<int>,
                            prev': seq<int>)
    requires IsGraph(g) && 0 <= u < |g|
  {
    && |dist| == |prev| == |q| == |dist'| == |prev'| == |g|
    && forall v :: 0 <= v < |g| ==>
      if q[v] == INFINITY || Relaxed(g, dist, u, v) == dist[v] then dist'[v] == dist[v] && prev'[v] == prev[v]
      else dist'[v] == Relaxed(g, dist, u, v) && prev'[v] == u
  }

  /** A round visits the nearest node left, or, when there is none, relaxes an old node again, which changes nothing. */
  lemma LoopStep(g: Graph, s: Progress, s': Progress, q: seq<int>, q': seq<int>, u0: int, u: int, i: int, found: bool)
    requires InLoop(g, s, q, u0, i) && 0 <= i < |g| && 0 <= u < |g| && q' == q[u := INFINITY]
    requires IsChoice(s.dist, q, u0, found, u) && (found ==> IsNearestUnvisited(g, s, u)) && (!found ==> u in s.visited)
    requires IsRelaxed(g, s.dist, s.prev, q', u, s'.dist, s'.prev)
    requires s'.visited == if found then s.visited + [u] else s.visited
    ensures InLoop(g, s', q', u, i + 1)
  {
    hide Settled, Linked;
    LoopFacts(g, s, q, u0, i);
    if found {
      assert Visits(g, s, s', u);
      VisitKeepsSettled(g, s, s', u);
    } else {
      NothingToRelax(g, s, s', q', u);
    }
  }

  lemma NothingToRelax(g: Graph, s: Progress, s': Progress, q: seq<int>, u: int)
    requires Settled(g, s) && u in s.visited && s'.visited == s.visited && 0 <= u < |g|
    requires IsRelaxed(g, s.dist, s.prev, q, u, s'.dist, s'.prev)
    ensures s' == s
  {
    forall v | 0 <= v < |g| ensures Relaxed(g, s.dist, u, v) == s.dist[v] {
      assert IsEdge(g, u, v) ==> s.dist[v] <= s.dist[u] + g[u][v];
    }
  }

  lemma {:induction false} DistinctFill(visited: seq<int>, n: nat, all: set<int>)
    requires forall i :: 0 <= i < |visited| ==> visited[i] in all
    requires forall i, j :: 0 <= i < j < |visited| ==> visited[i] != visited[j]
    requires |all| == |visited|
    ensures forall v :: v in all ==> v in visited
    decreases |visited|
  {
    if visited != [] {
      var m := |visited| - 1;
      DistinctFill(visited[..m], n, all - {visited[m]});
      forall v | v in all ensures v in visited {
        assert v == visited[m] || v in visited[..m];
      }
    }
  }

  lemma AfterLoop(g: Graph, s: Progress, q: seq<int>, u: int)
    requires InLoop(g, s, q, u, |g|)
    ensures AreShortest(g, s.dist, s.prev)
  {
    if |s.visited| == |g| { DistinctFill(s.visited, |g|, Below(|g|)); }
    forall p | IsPath(g, p) ensures s.dist[p[|p| - 1]] <= Weight(g, p) {
      NoShorterPath(g, s, p);
    }
    ReachedLeadBack(g, s);
  }

  /** The first of the nearest nodes not visited yet; the old node where all are at INFINITY. */
  method FindNearest(dist: array<int>, q: array<int>, u0: int) returns (found: bool, u: int)
    requires dist.Length == q.Length
    ensures IsChoice(dist[..], q[..], u0, found, u)
  {
    var shortest: int := INFINITY;
    found, u := false, u0;
    for j := 0 to dist.Length
      invariant found ==> 0 <= u < j && q[u] != INFINITY && dist[u] == shortest < INFINITY
      invariant !found ==> u == u0 && shortest == INFINITY
      invariant forall y :: 0 <= y < j && q[y] != INFINITY ==> shortest <= dist[y]
    {
      if dist[j] < shortest && q[j] != INFINITY {
        shortest, found, u := dist[j], true, j;
      }
    }
  }

  method Relax(g: Graph, u: int, dist: array<int>, prev: array<int>, q: array<int>)
    requires IsGraph(g) && 0 <= u < |g| && dist.Length == prev.Length == q.Length == |g| && q[u] == INFINITY
    requires dist != prev && dist != q && prev != q
    modifies dist, prev
    ensures IsRelaxed(g, old(dist[..]), old(prev[..]), q[..], u, dist[..], prev[..])
  {
    for v := 0 to |g|
      invariant forall k :: v <= k < |g| ==> dist[k] == old(dist[k]) && prev[k] == old(prev[k])
      invariant dist[u] == old(dist[u])
      invariant forall k :: 0 <= k < v ==>
        if q[k] == INFINITY || Relaxed(g, old(dist[..]), u, k) == old(dist[k])
        then dist[k] == old(dist[k]) && prev[k] == old(prev[k])
        else dist[k] == Relaxed(g, old(dist[..]), u, k) && prev[k] == u
    {
      if q[v] != INFINITY && g[u][v] != INFINITY {
        var alt := dist[u] + g[u][v];
        if alt < dist[v] {
          dist[v] := alt;
          prev[v] := u;
        }
      }
    }
  }
}
