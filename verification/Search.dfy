/** What a detour search knows about a mesh: the order in which routers were expanded and the labels they got. */
module Search {
  import opened Grid

  /** The usable hops, each a pair (from, to). */
  type Links = set<(Router, Router)>

  ghost predicate OnGrid(links: Links, w: int, h: int) {
    forall l :: l in links ==> InGrid(l.0, w, h) && InGrid(l.1, w, h) && Adjacent(l.0, l.1)
  }

  ghost predicate IsPath(links: Links, p: seq<Router>) {
    p != [] && forall i :: 0 <= i < |p| - 1 ==> (p[i], p[i + 1]) in links
  }

  ghost predicate PathBetween(links: Links, p: seq<Router>, s: Router, t: Router) {
    IsPath(links, p) && p[0] == s && p[|p| - 1] == t
  }

  ghost predicate Reachable(links: Links, s: Router, t: Router) {
    exists p :: PathBetween(links, p, s, t)
  }

  /** `plist[k]` is the earliest entry of the list with a hop to `v`. */
  ghost predicate FirstLink(links: Links, plist: seq<Router>, v: Router, k: int) {
    && 0 <= k < |plist|
    && (plist[k], v) in links
    && forall j :: 0 <= j < k ==> (plist[j], v) !in links
  }

  ghost predicate HasParent(links: Links, plist: seq<Router>, j: int)
    requires 0 <= j < |plist|
  {
    exists k :: k < j && FirstLink(links, plist, plist[j], k)
  }

  /** An expansion order in which everybody but the head was first touched by somebody expanded earlier. */
  ghost predicate DiscoveryList(links: Links, plist: seq<Router>) {
    && plist != []
    && Distinct(plist)
    && forall j :: 1 <= j < |plist| ==> HasParent(links, plist, j)
  }

  ghost function Parent(links: Links, plist: seq<Router>, j: int): (k: int)
    requires DiscoveryList(links, plist) && 1 <= j < |plist|
    ensures 0 <= k < j && FirstLink(links, plist, plist[j], k)
  {
    assert HasParent(links, plist, j);
    var k :| k < j && FirstLink(links, plist, plist[j], k);
    k
  }

  /** The branch of the discovery tree from the head of the list to its j-th entry. */
  ghost function Route(links: Links, plist: seq<Router>, j: int): (r: seq<Router>)
    requires DiscoveryList(links, plist) && 0 <= j < |plist|
    ensures r != [] && r[0] == plist[0] && r[|r| - 1] == plist[j]
    decreases j
  {
    if j == 0 then [plist[0]] else Route(links, plist, Parent(links, plist, j)) + [plist[j]]
  }

  /** The branch is a simple path whose routers appear in the list in strictly rising positions. */
  lemma {:induction false} RouteIsSimplePath(links: Links, plist: seq<Router>, j: int)
    requires DiscoveryList(links, plist) && 0 <= j < |plist|
    ensures PathBetween(links, Route(links, plist, j), plist[0], plist[j])
    ensures Distinct(Route(links, plist, j))
    ensures forall r :: r in Route(links, plist, j) ==> r in plist[..j + 1]
    ensures |Route(links, plist, j)| <= j + 1
    decreases j
  {
    if j > 0 {
      var k := Parent(links, plist, j);
      RouteIsSimplePath(links, plist, k);
      var r := Route(links, plist, k);
      assert r[|r| - 1] == plist[k];
      assert forall q :: q in plist[..k + 1] ==> q in plist[..j];
      assert plist[j] !in plist[..j];
      forall i | 0 <= i < |r| ensures r[i] != plist[j] {
        assert r[i] in r;
      }
      var full := r + [plist[j]];
      forall i | 0 <= i < |full| - 1 ensures (full[i], full[i + 1]) in links {
        if i < |r| - 1 {
          assert (r[i], r[i + 1]) in links;
        }
      }
    }
  }

  lemma ListedIsReachable(links: Links, plist: seq<Router>, j: int)
    requires DiscoveryList(links, plist) && 0 <= j < |plist|
    ensures Reachable(links, plist[0], plist[j])
  {
    RouteIsSimplePath(links, plist, j);
  }

  /** The j-th router of the route is the p-th of the list, and the route up to there is its branch. */
  ghost predicate OnBranch(links: Links, plist: seq<Router>, route: seq<Router>, p: int, j: int)
    requires DiscoveryList(links, plist)
  {
    0 <= p < |plist| && 0 <= j < |route| && route[..j + 1] == Route(links, plist, p)
  }

  lemma BranchStep(links: Links, plist: seq<Router>, route: seq<Router>, p: int, j: int)
    requires DiscoveryList(links, plist) && OnBranch(links, plist, route, p, j)
    ensures 0 <= p < |plist| && 0 <= j < |route|
    ensures route[j] == plist[p] && (p == 0 <==> j == 0)
    ensures p > 0 ==> OnBranch(links, plist, route, Parent(links, plist, p), j - 1)
    ensures p > 0 ==> route[j - 1] == plist[Parent(links, plist, p)]
  {
    assert route[..j + 1][j] == plist[p];
    if p > 0 {
      var k := Parent(links, plist, p);
      assert route[..j] == route[..j + 1][..j] == Route(links, plist, k);
      assert |Route(links, plist, k)| == j;
      assert route[..j][j - 1] == plist[k];
    } else {
      assert |Route(links, plist, p)| == 1;
    }
  }

  // ----- labels

  /** The detour number `u`, itself labelled `d`, hands to its neighbour `v` when the target is `t`. */
  function Label(t: Router, u: Router, d: int, v: Router): int {
    if Manhattan(v, t) >= Manhattan(u, t) then d + 1 else d
  }

  ghost predicate LabelledFrom(links: Links, t: Router, labels: map<Router, int>, plist: seq<Router>, v: Router,
                               k: int)
  {
    && FirstLink(links, plist, v, k)
    && v in labels && plist[k] in labels
    && labels[v] == Label(t, plist[k], labels[plist[k]], v)
  }

  /** `v` was discovered, and labelled, by one of the first `bound` routers of the list. */
  ghost predicate Discovered(links: Links, t: Router, labels: map<Router, int>, plist: seq<Router>, v: Router,
                             bound: int)
  {
    exists k :: k < bound && LabelledFrom(links, t, labels, plist, v, k)
  }

  ghost predicate Expanded(links: Links, labels: map<Router, int>, u: Router) {
    forall v :: (u, v) in links ==> v in labels
  }

  /** The state of a search from `s` to `t`: `plist` was popped, `nlist` waits, and the labelled routers are these. */
  ghost predicate Frontier(links: Links, s: Router, t: Router, labels: map<Router, int>, plist: seq<Router>,
                           nlist: seq<Router>)
  {
    && plist != [] && plist[0] == s
    && Distinct(plist + nlist)
    && (forall r :: r in plist || r in nlist <==> r in labels)
    && labels[s] == 0
    && (forall r :: r in labels ==> labels[r] >= 0)
    && (forall j :: 1 <= j < |plist| ==> Discovered(links, t, labels, plist, plist[j], j))
    && (forall v :: v in nlist ==> Discovered(links, t, labels, plist, v, |plist|))
  }

  ghost predicate ExpandedUpTo(links: Links, labels: map<Router, int>, plist: seq<Router>, n: int)
    requires 0 <= n <= |plist|
  {
    forall i :: 0 <= i < n ==> Expanded(links, labels, plist[i])
  }

  /** Popped labels never decrease, and nothing waiting is labelled below the last popped router. */
  ghost predicate Monotone(labels: map<Router, int>, plist: seq<Router>, nlist: seq<Router>) {
    && plist != []
    && (forall r :: r in plist || r in nlist ==> r in labels)
    && (forall i, j :: 0 <= i < j < |plist| ==> labels[plist[i]] <= labels[plist[j]])
    && (forall v :: v in nlist ==> labels[plist[|plist| - 1]] <= labels[v])
  }

  lemma StartFrontier(links: Links, s: Router, t: Router)
    ensures Frontier(links, s, t, map[s := 0], [s], [])
    ensures Monotone(map[s := 0], [s], [])
    ensures ExpandedUpTo(links, map[s := 0], [s], 0)
  {
  }

  /** Labelling an untouched neighbour of the router being expanded. */
  lemma LabelStep(links: Links, s: Router, t: Router, labels: map<Router, int>, plist: seq<Router>, nlist: seq<Router>,
                  v: Router)
    requires Frontier(links, s, t, labels, plist, nlist)
    requires ExpandedUpTo(links, labels, plist, |plist| - 1)
    requires Monotone(labels, plist, nlist)
    requires v !in labels && (plist[|plist| - 1], v) in links
    ensures var u := plist[|plist| - 1]; var labels' := labels[v := Label(t, u, labels[u], v)];
      && Frontier(links, s, t, labels', plist, nlist + [v])
      && ExpandedUpTo(links, labels', plist, |plist| - 1)
      && Monotone(labels', plist, nlist + [v])
  {
    LastLinksFirst(links, s, t, labels, plist, nlist, v);
    hide Frontier, FirstLink;
    LabelStepFrontier(links, s, t, labels, plist, nlist, v);
  }

  /** Earlier routers were fully expanded, so none of them has a hop to an unlabelled router. */
  lemma LastLinksFirst(links: Links, s: Router, t: Router, labels: map<Router, int>, plist: seq<Router>,
                       nlist: seq<Router>, v: Router)
    requires Frontier(links, s, t, labels, plist, nlist)
    requires ExpandedUpTo(links, labels, plist, |plist| - 1)
    requires v !in labels && (plist[|plist| - 1], v) in links
    ensures plist[|plist| - 1] in labels && v !in plist
    ensures FirstLink(links, plist, v, |plist| - 1)
  {
    assert plist[|plist| - 1] in plist;
    forall j | 0 <= j < |plist| - 1 ensures (plist[j], v) !in links {
      assert Expanded(links, labels, plist[j]);
    }
  }

  lemma LabelStepFrontier(links: Links, s: Router, t: Router, labels: map<Router, int>, plist: seq<Router>,
                          nlist: seq<Router>, v: Router)
    requires Frontier(links, s, t, labels, plist, nlist)
    requires plist[|plist| - 1] in labels
    requires v !in labels && FirstLink(links, plist, v, |plist| - 1)
    ensures var u := plist[|plist| - 1];
      Frontier(links, s, t, labels[v := Label(t, u, labels[u], v)], plist, nlist + [v])
  {
    var u := plist[|plist| - 1];
    var labels' := labels[v := Label(t, u, labels[u], v)];
    assert v !in plist && v !in nlist;
    AppendKeepsDistinct(plist, nlist, v);
    assert plist[0] in plist;
    LabelKeepsDiscovered(links, t, labels, plist, nlist, v);
    hide Discovered, FirstLink, Distinct;
    assert Frontier(links, s, t, labels', plist, nlist + [v]);
  }

  lemma AppendKeepsDistinct(plist: seq<Router>, nlist: seq<Router>, v: Router)
    requires Distinct(plist + nlist) && v !in plist && v !in nlist
    ensures Distinct(plist + (nlist + [v]))
  {
    assert plist + (nlist + [v]) == (plist + nlist) + [v];
  }

  lemma LabelKeepsDiscovered(links: Links, t: Router, labels: map<Router, int>, plist: seq<Router>, nlist: seq<Router>,
                             v: Router)
    requires plist != [] && plist[|plist| - 1] in labels
    requires forall j :: 1 <= j < |plist| ==> Discovered(links, t, labels, plist, plist[j], j)
    requires forall x :: x in nlist ==> Discovered(links, t, labels, plist, x, |plist|)
    requires v !in labels && FirstLink(links, plist, v, |plist| - 1)
    ensures var u := plist[|plist| - 1]; var labels' := labels[v := Label(t, u, labels[u], v)];
      && (forall j :: 1 <= j < |plist| ==> Discovered(links, t, labels', plist, plist[j], j))
      && (forall x :: x in nlist + [v] ==> Discovered(links, t, labels', plist, x, |plist|))
  {
    var u := plist[|plist| - 1];
    var labels' := labels[v := Label(t, u, labels[u], v)];
    assert LabelledFrom(links, t, labels', plist, v, |plist| - 1);
    forall j | 1 <= j < |plist| ensures Discovered(links, t, labels', plist, plist[j], j) {
      KeepDiscovered(links, t, labels, labels', plist, plist, plist[j], j);
    }
    forall x | x in nlist + [v] ensures Discovered(links, t, labels', plist, x, |plist|) {
      if x != v {
        KeepDiscovered(links, t, labels, labels', plist, plist, x, |plist|);
      }
    }
  }

  lemma KeepDiscovered(links: Links, t: Router, labels: map<Router, int>, labels': map<Router, int>,
                       plist: seq<Router>, plist': seq<Router>, v: Router, bound: int)
    requires Discovered(links, t, labels, plist, v, bound)
    requires plist <= plist'
    requires forall r :: r in labels ==> r in labels' && labels'[r] == labels[r]
    ensures Discovered(links, t, labels', plist', v, bound)
  {
    var k :| k < bound && LabelledFrom(links, t, labels, plist, v, k);
    assert plist'[k] == plist[k];
    assert LabelledFrom(links, t, labels', plist', v, k);
  }

  function RemoveAt<T>(s: seq<T>, i: int): seq<T>
    requires 0 <= i < |s|
  {
    s[..i] + s[i + 1..]
  }

  ghost predicate AllLabelled(labels: map<Router, int>, nlist: seq<Router>) {
    forall j :: 0 <= j < |nlist| ==> nlist[j] in labels
  }

  /** Position i holds a least label, and the latest one of that value. */
  ghost predicate LatestMin(labels: map<Router, int>, nlist: seq<Router>, i: int) {
    && 0 <= i < |nlist| && AllLabelled(labels, nlist)
    && (forall j :: 0 <= j < |nlist| ==> labels[nlist[i]] <= labels[nlist[j]])
    && (forall j :: i < j < |nlist| ==> labels[nlist[i]] < labels[nlist[j]])
  }

  /** Popping a waiting router whose label is least. */
  lemma PopStep(links: Links, s: Router, t: Router, labels: map<Router, int>, plist: seq<Router>, nlist: seq<Router>,
                i: int)
    requires Frontier(links, s, t, labels, plist, nlist) && Monotone(labels, plist, nlist)
    requires LatestMin(labels, nlist, i)
    ensures Frontier(links, s, t, labels, plist + [nlist[i]], RemoveAt(nlist, i))
    ensures Monotone(labels, plist + [nlist[i]], RemoveAt(nlist, i))
  {
    var plist' := plist + [nlist[i]];
    var nlist' := RemoveAt(nlist, i);
    PopKeepsMembers(plist, nlist, i);
    assert Frontier(links, s, t, labels, plist', nlist') by {
      PopKeepsDiscovered(links, s, t, labels, plist, nlist, i);
      PopKeepsDistinct(plist, nlist, i);
    }
    assert nlist[i] in nlist && plist[|plist| - 1] in plist;
    forall j | 0 <= j < |plist| ensures labels[plist[j]] <= labels[nlist[i]] {
      assert plist[j] in plist;
      assert labels[plist[j]] <= labels[plist[|plist| - 1]];
    }
  }

  lemma PopKeepsMembers(plist: seq<Router>, nlist: seq<Router>, i: int)
    requires 0 <= i < |nlist|
    ensures forall r :: r in plist + [nlist[i]] || r in RemoveAt(nlist, i) <==> r in plist || r in nlist
    ensures forall r :: r in RemoveAt(nlist, i) ==> r in nlist
  {
    assert nlist == nlist[..i] + [nlist[i]] + nlist[i + 1..];
  }

  lemma PopKeepsDistinct(plist: seq<Router>, nlist: seq<Router>, i: int)
    requires Distinct(plist + nlist) && 0 <= i < |nlist|
    ensures Distinct(plist + [nlist[i]] + RemoveAt(nlist, i))
  {
    var before, after := plist + nlist, plist + [nlist[i]] + RemoveAt(nlist, i);
    forall a | 0 <= a < |after| ensures after[a] == before[Old(|plist|, i, a)] {
    }
    forall a, b | 0 <= a < b < |after| ensures after[a] != after[b] {
      assert Old(|plist|, i, a) != Old(|plist|, i, b);
    }
  }

  /** Where position `a` of the lists after popping waiting router `i` stood before. */
  function Old(n: int, i: int, a: int): int {
    if a < n then a else if a == n then n + i else if a - 1 < n + i then a - 1 else a
  }

  lemma PopKeepsDiscovered(links: Links, s: Router, t: Router, labels: map<Router, int>, plist: seq<Router>,
                           nlist: seq<Router>, i: int)
    requires Frontier(links, s, t, labels, plist, nlist)
    requires 0 <= i < |nlist|
    ensures var plist' := plist + [nlist[i]];
      && (forall j :: 1 <= j < |plist'| ==> Discovered(links, t, labels, plist', plist'[j], j))
      && (forall v :: v in nlist ==> Discovered(links, t, labels, plist', v, |plist'|))
  {
    var plist' := plist + [nlist[i]];
    forall j | 1 <= j < |plist'| ensures Discovered(links, t, labels, plist', plist'[j], j) {
      if j < |plist| {
        KeepDiscovered(links, t, labels, labels, plist, plist', plist[j], j);
      } else {
        KeepDiscovered(links, t, labels, labels, plist, plist', nlist[i], |plist|);
      }
    }
    forall v | v in nlist ensures Discovered(links, t, labels, plist', v, |plist'|) {
      KeepDiscovered(links, t, labels, labels, plist, plist', v, |plist|);
      var k :| k < |plist| && LabelledFrom(links, t, labels, plist', v, k);
    }
  }

  /** A popped discovery order whose links are all explained is a discovery list. */
  lemma FrontierIsDiscoveryList(links: Links, s: Router, t: Router, labels: map<Router, int>, plist: seq<Router>,
                                nlist: seq<Router>)
    requires Frontier(links, s, t, labels, plist, nlist)
    ensures DiscoveryList(links, plist)
  {
    forall i, j | 0 <= i < j < |plist| ensures plist[i] != plist[j] {
      assert (plist + nlist)[i] != (plist + nlist)[j];
    }
    forall j | 1 <= j < |plist| ensures HasParent(links, plist, j) {
      assert Discovered(links, t, labels, plist, plist[j], j);
      var k :| k < j && LabelledFrom(links, t, labels, plist, plist[j], k);
    }
  }

  /** Nothing left to expand and the target unlabelled: no path exists. */
  lemma ExhaustedIsUnreachable(links: Links, s: Router, t: Router, labels: map<Router, int>, plist: seq<Router>)
    requires Frontier(links, s, t, labels, plist, [])
    requires ExpandedUpTo(links, labels, plist, |plist|)
    requires t !in labels
    ensures !Reachable(links, s, t)
  {
    forall p | PathBetween(links, p, s, t) ensures false {
      StaysLabelled(links, labels, plist, p, |p| - 1);
    }
  }

  lemma {:induction false} StaysLabelled(links: Links, labels: map<Router, int>, plist: seq<Router>, p: seq<Router>,
                                         n: int)
    requires IsPath(links, p) && 0 <= n < |p|
    requires forall r :: r in labels <==> r in plist
    requires ExpandedUpTo(links, labels, plist, |plist|)
    requires p[0] in labels
    ensures p[n] in labels
    decreases n
  {
    if n > 0 {
      StaysLabelled(links, labels, plist, p, n - 1);
      var i :| 0 <= i < |plist| && plist[i] == p[n - 1];
      assert Expanded(links, labels, plist[i]);
    }
  }

  /** The search tree spends one extra hop there and one back for every unit of detour. */
  lemma {:induction false} RouteLength(links: Links, s: Router, t: Router, labels: map<Router, int>,
                                      plist: seq<Router>, nlist: seq<Router>, j: int)
    requires Frontier(links, s, t, labels, plist, nlist) && DiscoveryList(links, plist)
    requires forall l :: l in links ==> Adjacent(l.0, l.1)
    requires 0 <= j < |plist|
    ensures plist[j] in labels
    ensures |Route(links, plist, j)| - 1 + Manhattan(plist[j], t) == Manhattan(s, t) + 2 * labels[plist[j]]
    decreases j
  {
    assert plist[j] in plist;
    if j > 0 {
      var k := Parent(links, plist, j);
      RouteLength(links, s, t, labels, plist, nlist, k);
      assert Discovered(links, t, labels, plist, plist[j], j);
      var k' :| k' < j && LabelledFrom(links, t, labels, plist, plist[j], k');
      assert k == k';
      var u, v := plist[k], plist[j];
      assert (u, v) in links;
      StepChangesDistance(u, v, t);
      assert labels[v] == labels[u] + if Manhattan(v, t) > Manhattan(u, t) then 1 else 0;
    }
  }

  lemma StepChangesDistance(u: Router, v: Router, t: Router)
    requires Adjacent(u, v)
    ensures Manhattan(v, t) == Manhattan(u, t) + 1 || Manhattan(v, t) == Manhattan(u, t) - 1
  {
  }

  /** Both lists together never hold more routers than the grid. */
  lemma FrontierFits(links: Links, s: Router, t: Router, labels: map<Router, int>, plist: seq<Router>,
                     nlist: seq<Router>,
                     w: nat, h: nat)
    requires Frontier(links, s, t, labels, plist, nlist)
    requires OnGrid(links, w, h) && InGrid(s, w, h)
    ensures forall r :: r in labels ==> InGrid(r, w, h)
    ensures |plist| + |nlist| <= |Cells(w, h)|
  {
    forall r | r in labels ensures InGrid(r, w, h) {
      if r in plist {
        var j :| 0 <= j < |plist| && plist[j] == r;
        if j > 0 {
          var k :| k < j && LabelledFrom(links, t, labels, plist, plist[j], k);
          assert (plist[k], r) in links;
        }
      } else {
        var k :| k < |plist| && LabelledFrom(links, t, labels, plist, r, k);
        assert (plist[k], r) in links;
      }
    }
    var all := plist + nlist;
    forall r | r in all ensures r in Cells(w, h) {
      assert r in plist || r in nlist;
      assert InGrid(r, w, h);
      assert r == Router(r.x, r.y);
    }
    DistinctFits(all, Cells(w, h));
  }

  lemma PoppedAreLabelled(links: Links, s: Router, t: Router, labels: map<Router, int>, plist: seq<Router>,
                          nlist: seq<Router>,
                          w: nat, h: nat, j: int)
    requires Frontier(links, s, t, labels, plist, nlist)
    requires OnGrid(links, w, h) && InGrid(s, w, h)
    requires 0 <= j < |plist|
    ensures plist[j] in labels && labels[plist[j]] >= 0 && InGrid(plist[j], w, h)
    ensures s in labels && InGrid(s, w, h)
  {
    FrontierFits(links, s, t, labels, plist, nlist, w, h);
    assert plist[j] in plist && plist[0] in plist;
  }

  lemma PendingAreLabelled(links: Links, s: Router, t: Router, labels: map<Router, int>, plist: seq<Router>,
                           nlist: seq<Router>)
    requires Frontier(links, s, t, labels, plist, nlist) && Monotone(labels, plist, nlist)
    ensures plist[|plist| - 1] in labels && AllLabelled(labels, nlist)
  {
    assert plist[|plist| - 1] in plist;
    assert forall j :: 0 <= j < |nlist| ==> nlist[j] in nlist;
  }

  /**
   * What popping position i says: its label is no less than the last popped one, and ties go to the end of the list.
   */
  ghost predicate BestPending(labels: map<Router, int>, plist: seq<Router>, nlist: seq<Router>, i: int) {
    && 0 <= i < |nlist| && plist != [] && nlist[i] in labels && nlist[|nlist| - 1] in labels
    && plist[|plist| - 1] in labels
    && labels[plist[|plist| - 1]] <= labels[nlist[i]]
    && (labels[nlist[|nlist| - 1]] <= labels[nlist[i]] ==> nlist[i] == nlist[|nlist| - 1])
  }

  /** The target waits at the end of the list, labelled like the last popped router. */
  ghost predicate TargetIsNext(labels: map<Router, int>, plist: seq<Router>, nlist: seq<Router>, t: Router) {
    && plist != [] && nlist != [] && nlist[|nlist| - 1] == t
    && t in labels && plist[|plist| - 1] in labels && labels[t] == labels[plist[|plist| - 1]]
  }

  /** Such a target is popped next. */
  lemma BestIsTarget(labels: map<Router, int>, plist: seq<Router>, nlist: seq<Router>, i: int, t: Router)
    requires BestPending(labels, plist, nlist, i) && TargetIsNext(labels, plist, nlist, t)
    ensures nlist[i] == t
  {
  }

  lemma LatestMinFacts(labels: map<Router, int>, plist: seq<Router>, nlist: seq<Router>, i: int)
    requires Monotone(labels, plist, nlist) && LatestMin(labels, nlist, i)
    ensures BestPending(labels, plist, nlist, i)
  {
    assert plist[|plist| - 1] in plist && nlist[i] in nlist;
  }

  lemma LastExpanded(links: Links, labels: map<Router, int>, plist: seq<Router>)
    requires plist != [] && ExpandedUpTo(links, labels, plist, |plist| - 1)
    requires Expanded(links, labels, plist[|plist| - 1])
    ensures ExpandedUpTo(links, labels, plist, |plist|)
  {
  }

  lemma AppendKeepsExpanded(links: Links, labels: map<Router, int>, plist: seq<Router>, next: Router)
    requires ExpandedUpTo(links, labels, plist, |plist|)
    ensures ExpandedUpTo(links, labels, plist + [next], |plist|)
  {
  }

  /** There is room for one more label as long as some router of the grid has none. */
  lemma RoomForOneMore(links: Links, s: Router, t: Router, labels: map<Router, int>, plist: seq<Router>,
                       nlist: seq<Router>,
                       w: nat, h: nat, v: Router)
    requires Frontier(links, s, t, labels, plist, nlist)
    requires OnGrid(links, w, h) && InGrid(s, w, h)
    requires v !in labels && InGrid(v, w, h)
    ensures |plist| + |nlist| < |Cells(w, h)|
  {
    FrontierFits(links, s, t, labels, plist, nlist, w, h);
    var all := plist + nlist + [v];
    forall r | r in all ensures r in Cells(w, h) {
      assert r in plist || r in nlist || r == v;
      assert InGrid(r, w, h);
      assert r == Router(r.x, r.y);
    }
    assert v !in plist && v !in nlist;
    assert Distinct(all);
    DistinctFits(all, Cells(w, h));
  }

  /** No label exceeds half of what a route through every router could waste, so small grids fit a signed byte. */
  lemma LabelBound(links: Links, s: Router, t: Router, labels: map<Router, int>, plist: seq<Router>, nlist: seq<Router>,
                   w: nat, h: nat, v: Router)
    requires Frontier(links, s, t, labels, plist, nlist)
    requires OnGrid(links, w, h) && InGrid(s, w, h) && InGrid(t, w, h)
    requires v in labels
    ensures 2 * labels[v] <= w * h + w + h - 3
  {
    FrontierFits(links, s, t, labels, plist, nlist, w, h);
    CellCount(w, h);
    assert InGrid(v, w, h);
    if v in plist {
      var j :| 0 <= j < |plist| && plist[j] == v;
      PoppedLabelBound(links, s, t, labels, plist, nlist, j);
    } else {
      assert v in nlist;
      var k :| k < |plist| && LabelledFrom(links, t, labels, plist, v, k);
      var u := plist[k];
      PoppedLabelBound(links, s, t, labels, plist, nlist, k);
      assert (u, v) in links;
      StepChangesDistance(u, v, t);
      assert 2 * labels[v] <= |plist| + Manhattan(v, t) - Manhattan(s, t);
    }
  }

  lemma PoppedLabelBound(links: Links, s: Router, t: Router, labels: map<Router, int>, plist: seq<Router>,
                         nlist: seq<Router>, j: int)
    requires Frontier(links, s, t, labels, plist, nlist)
    requires forall l :: l in links ==> Adjacent(l.0, l.1)
    requires 0 <= j < |plist|
    ensures plist[j] in labels
    ensures 2 * labels[plist[j]] <= j + Manhattan(plist[j], t) - Manhattan(s, t)
  {
    FrontierIsDiscoveryList(links, s, t, labels, plist, nlist);
    RouteLength(links, s, t, labels, plist, nlist, j);
    RouteIsSimplePath(links, plist, j);
  }

  /**
   * A search that popped its target last has a route to it, of Manhattan length plus two hops for every unit of detour.
   */
  lemma FinishedSearch(links: Links, s: Router, t: Router, labels: map<Router, int>, plist: seq<Router>,
                       nlist: seq<Router>)
    requires Frontier(links, s, t, labels, plist, nlist)
    requires forall l :: l in links ==> Adjacent(l.0, l.1)
    requires plist[|plist| - 1] == t
    ensures DiscoveryList(links, plist) && plist[0] == s && Reachable(links, s, t)
    ensures t in labels && labels[t] >= 0
    ensures |Route(links, plist, |plist| - 1)| - 1 == Manhattan(s, t) + 2 * labels[t]
  {
    FrontierIsDiscoveryList(links, s, t, labels, plist, nlist);
    RouteLength(links, s, t, labels, plist, nlist, |plist| - 1);
    ListedIsReachable(links, plist, |plist| - 1);
  }

  // ----- where the search goes straight to its target

  /** Every hop of the path brings it nearer to t. */
  ghost predicate Descends(p: seq<Router>, t: Router) {
    forall i :: 0 <= i < |p| - 1 ==> Manhattan(p[i + 1], t) < Manhattan(p[i], t)
  }

  ghost predicate HasNearer(links: Links, r: Router, t: Router) {
    exists v :: (r, v) in links && Manhattan(v, t) < Manhattan(r, t)
  }

  /** Whoever goes nearer to t hop by hop, starting from s, can always go on until it is there. */
  ghost predicate NoDeadEnd(links: Links, s: Router, t: Router) {
    forall p, r :: PathBetween(links, p, s, r) && Descends(p, t) && r != t ==> HasNearer(links, r, t)
  }

  /** r lies in the rectangle that s and t span. */
  predicate Between(r: Router, s: Router, t: Router) {
    && (s.x <= r.x <= t.x || t.x <= r.x <= s.x)
    && (s.y <= r.y <= t.y || t.y <= r.y <= s.y)
  }

  /** A path that comes nearer with every hop stays in the rectangle. */
  lemma {:induction false} DescentStaysBetween(links: Links, p: seq<Router>, s: Router, t: Router, n: nat)
    requires IsPath(links, p) && p[0] == s && Descends(p, t) && n < |p|
    requires forall l :: l in links ==> Adjacent(l.0, l.1)
    ensures Between(p[n], s, t)
  {
    if n > 0 {
      DescentStaysBetween(links, p, s, t, n - 1);
      assert (p[n - 1], p[n - 1 + 1]) in links;
      assert Manhattan(p[n - 1 + 1], t) < Manhattan(p[n - 1], t);
    }
  }

  /** There is no dead end where every router of the rectangle, but for t, has a usable hop nearer to t. */
  lemma RectangleHasNoDeadEnd(links: Links, s: Router, t: Router)
    requires forall l :: l in links ==> Adjacent(l.0, l.1)
    requires forall r :: Between(r, s, t) && r != t ==> HasNearer(links, r, t)
    ensures NoDeadEnd(links, s, t)
  {
    forall p, r | PathBetween(links, p, s, r) && Descends(p, t) && r != t ensures HasNearer(links, r, t) {
      DescentStaysBetween(links, p, s, t, |p| - 1);
    }
  }

  /** What expanding u adds: neighbours without a label before, labelled from u and waiting behind all others. */
  ghost predicate Grown(links: Links, t: Router, u: Router, labels: map<Router, int>, labels': map<Router, int>,
                        nlist: seq<Router>, nlist': seq<Router>)
    requires u in labels
  {
    && |nlist| <= |nlist'| && nlist'[..|nlist|] == nlist
    && (forall r :: r in labels ==> r in labels' && labels'[r] == labels[r])
    && (forall r :: r in labels' ==> r in labels || r in nlist'[|nlist|..])
    && (forall v :: v in nlist'[|nlist|..] ==>
      v !in labels && (u, v) in links && v in labels' && labels'[v] == Label(t, u, labels[u], v))
  }

  lemma NothingGrown(links: Links, t: Router, u: Router, labels: map<Router, int>, nlist: seq<Router>)
    requires u in labels
    ensures Grown(links, t, u, labels, labels, nlist, nlist)
  {
  }

  lemma OneGrown(links: Links, t: Router, u: Router, labels: map<Router, int>, labels': map<Router, int>,
                 nlist: seq<Router>, nlist': seq<Router>, v: Router)
    requires u in labels && Grown(links, t, u, labels, labels', nlist, nlist') && v !in labels' && (u, v) in links
    requires u in labels'
    ensures Grown(links, t, u, labels, labels'[v := Label(t, u, labels'[u], v)], nlist, nlist' + [v])
  {
    assert (nlist' + [v])[..|nlist|] == nlist'[..|nlist|];
    assert (nlist' + [v])[|nlist|..] == nlist'[|nlist|..] + [v];
  }

  /** The search has come down to u, which has no detour, and to no router nearer to t. */
  ghost predicate DownTo(links: Links, s: Router, t: Router, labels: map<Router, int>, u: Router) {
    && (exists p :: PathBetween(links, p, s, u) && Descends(p, t))
    && u in labels && labels[u] == 0
    && forall r :: r in labels ==> labels[r] >= 0 && Manhattan(r, t) >= Manhattan(u, t)
  }

  lemma StartsDown(links: Links, s: Router, t: Router)
    ensures DownTo(links, s, t, map[s := 0], s)
  {
    assert PathBetween(links, [s], s, s) && Descends([s], t);
  }

  /** A nearer neighbour has had no label, so the expansion of u has added it without a detour. */
  lemma NearerIsAdded(links: Links, s: Router, t: Router, u: Router, labels: map<Router, int>,
                      labels': map<Router, int>, nlist: seq<Router>, nlist': seq<Router>) returns (k: nat)
    requires DownTo(links, s, t, labels, u) && NoDeadEnd(links, s, t) && u != t
    requires Grown(links, t, u, labels, labels', nlist, nlist') && Expanded(links, labels', u)
    ensures |nlist| <= k < |nlist'| && nlist'[k] in labels' && labels'[nlist'[k]] == 0
  {
    assert HasNearer(links, u, t);
    var v :| (u, v) in links && Manhattan(v, t) < Manhattan(u, t);
    assert v in nlist'[|nlist|..];
    var i :| 0 <= i < |nlist'| - |nlist| && nlist'[|nlist|..][i] == v;
    k := |nlist| + i;
  }

  /**
   * The latest router of least label is then a nearer neighbour too: all labels are at least 0, and those added before
   * stand before the new ones.
   */
  lemma StepsDown(links: Links, s: Router, t: Router, u: Router, labels: map<Router, int>, labels': map<Router, int>,
                  nlist: seq<Router>, nlist': seq<Router>, i: int)
    requires DownTo(links, s, t, labels, u) && NoDeadEnd(links, s, t) && u != t
    requires Grown(links, t, u, labels, labels', nlist, nlist') && Expanded(links, labels', u)
    requires forall l :: l in links ==> Adjacent(l.0, l.1)
    requires LatestMin(labels', nlist', i)
    ensures DownTo(links, s, t, labels', nlist'[i])
  {
    hide NoDeadEnd;
    var k := NearerIsAdded(links, s, t, u, labels, labels', nlist, nlist');
    assert k <= i;
    var v := nlist'[i];
    assert v == nlist'[|nlist|..][i - |nlist|];
    StepChangesDistance(u, v, t);
    var p :| PathBetween(links, p, s, u) && Descends(p, t);
    PathGrows(links, p, s, u, v, t);
    forall r | r in labels' ensures labels'[r] >= 0 && Manhattan(r, t) >= Manhattan(v, t) {
      if r !in labels { StepChangesDistance(u, r, t); }
    }
  }

  /** Whichever router is popped next, the search has come down to it. */
  ghost predicate LeadsDown(links: Links, s: Router, t: Router, labels: map<Router, int>, nlist: seq<Router>) {
    forall i :: LatestMin(labels, nlist, i) ==> DownTo(links, s, t, labels, nlist[i])
  }

  lemma NextIsDown(links: Links, s: Router, t: Router, labels: map<Router, int>, nlist: seq<Router>, i: int)
    requires LeadsDown(links, s, t, labels, nlist) && LatestMin(labels, nlist, i)
    ensures DownTo(links, s, t, labels, nlist[i])
  {
  }

  lemma ExpansionLeadsDown(links: Links, s: Router, t: Router, u: Router, labels: map<Router, int>,
                           labels': map<Router, int>, nlist: seq<Router>, nlist': seq<Router>)
    requires DownTo(links, s, t, labels, u) && NoDeadEnd(links, s, t) && u != t
    requires Grown(links, t, u, labels, labels', nlist, nlist') && Expanded(links, labels', u)
    requires forall l :: l in links ==> Adjacent(l.0, l.1)
    ensures nlist' != [] && LeadsDown(links, s, t, labels', nlist')
  {
    var k := NearerIsAdded(links, s, t, u, labels, labels', nlist, nlist');
    forall i | LatestMin(labels', nlist', i) ensures DownTo(links, s, t, labels', nlist'[i]) {
      StepsDown(links, s, t, u, labels, labels', nlist, nlist', i);
    }
  }

  lemma PathGrows(links: Links, p: seq<Router>, s: Router, u: Router, v: Router, t: Router)
    requires PathBetween(links, p, s, u) && Descends(p, t) && (u, v) in links && Manhattan(v, t) < Manhattan(u, t)
    ensures PathBetween(links, p + [v], s, v) && Descends(p + [v], t)
  {
  }
}
