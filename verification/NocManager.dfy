/** The circuit-switching controller of one cluster: path search, reservation and release on its port tables. */
module NocManager {
  import opened Basics
  import opened Grid
  import opened Search
  import opened Circuits
  import opened Bits
  import opened Walks
  import opened Plans

  function Code(p: Port): (n: nat)
    ensures n < 6
  {
    match p
    case East => 0
    case West => 1
    case North => 2
    case South => 3
    case LocalOut => 4
    case LocalIn => 5
  }

  function PortOf(n: nat): (p: Port)
    requires n < 6
    ensures Code(p) == n && forall q :: Code(q) == n ==> q == p
  {
    if n < 4 then Side(n) else if n == 4 then LocalOut else LocalIn
  }

  function Side(n: int): (p: Port)
    requires 0 <= n < 4
    ensures IsSide(p) && Code(p) == n
  {
    if n == 0 then East else if n == 1 then West else if n == 2 then North else South
  }

  /** The port table that an array holds. */
  ghost function PortTable(csInport: array4<Entry>): Table
    requires csInport.Length3 == 6
    reads csInport
  {
    map s | s in AllSlots(csInport.Length0, csInport.Length1, csInport.Length2)
      :: csInport[s.at.x, s.at.y, s.net, Code(s.port)]
  }

  lemma FreshTable(csInport: array4<Entry>)
    requires csInport.Length3 == 6
    requires forall r: Router, n: nat, p: Port :: InGrid(r, csInport.Length0, csInport.Length1) && n < csInport.Length2 ==>
      csInport[r.x, r.y, n, Code(p)] == Free
    ensures Complete(PortTable(csInport), csInport.Length0, csInport.Length1, csInport.Length2)
    ensures forall s :: s in PortTable(csInport) ==> PortTable(csInport)[s] == Free
  {
  }

  datatype ArrayLengths = ArrayLengths(inport: (int, int, int, int), detour: (int, int), nlist: int, plist: int,
                                       utilization: int,
                                       input: (int, int, int, int), output: (int, int, int, int), available: (int, int, int))

  ghost function ExpectedLengths(w: nat, h: nat, nets: nat, cw: nat, ch: nat): ArrayLengths {
    ArrayLengths((w, h, nets, 6), (w, h), |Cells(w, h)|, |Cells(w, h)|, nets, (cw, ch, nets, 4), (cw, ch, nets, 4),
                 (cw, ch, nets))
  }

  class Controller {
    const xCluster: nat
    const yCluster: nat
    const csNets: nat

    const csInport: array4<Entry>
    const detour: array2<int>
    const nlist: array<Router>
    var lastNlist: nat
    const plist: array<Router>
    var lastPlist: nat

    const subnetUtilization: array<nat>
    ghost var live: seq<Circuit>
    ghost var faults: set<Slot>
    var subnetSelector: nat

    // the grid being searched: the routers of this cluster, or all clusters
    const xClusterNum: nat
    const yClusterNum: nat
    var maxGridX: nat
    var maxGridY: nat
    var isGlobalSearch: bool

    // what is known of the cluster borders, as words with one bit per border router
    const borderInput: array4<nat>
    const borderOutput: array4<nat>
    const available: array3<bool>
    const maxXBorder: nat
    const maxYBorder: nat
    var clusterPath: seq<Hop>

    /** All ports free, local search mode, empty border words. */
    constructor (xCluster: nat, yCluster: nat, csNets: nat, xClusterNum: nat, yClusterNum: nat)
      requires xClusterNum <= xCluster && yClusterNum <= yCluster
      ensures this.xCluster == xCluster && this.yCluster == yCluster && this.csNets == csNets
      ensures this.xClusterNum == xClusterNum && this.yClusterNum == yClusterNum
      requires csNets > 0
      ensures Shaped() && Books() && live == [] && faults == {}
    {
      this.xCluster, this.yCluster, this.csNets := xCluster, yCluster, csNets;
      this.xClusterNum, this.yClusterNum := xClusterNum, yClusterNum;
      csInport := new Entry[xCluster, yCluster, csNets, 6]((_, _, _, _) => Free);
      detour := new int[xCluster, yCluster]((_, _) => -1);
      CellCount(xCluster, yCluster);
      nlist := new Router[xCluster * yCluster](_ => Router(0, 0));
      plist := new Router[xCluster * yCluster](_ => Router(0, 0));
      borderInput := new nat[xClusterNum, yClusterNum, csNets, 4]((_, _, _, _) => 0);
      borderOutput := new nat[xClusterNum, yClusterNum, csNets, 4]((_, _, _, _) => 0);
      available := new bool[xClusterNum, yClusterNum, csNets]((_, _, _) => true);
      maxXBorder, maxYBorder := AllOnes(xCluster), AllOnes(yCluster);
      clusterPath := [];
      maxGridX, maxGridY, isGlobalSearch := xCluster, yCluster, false;
      lastNlist, lastPlist := 0, 0;
      subnetUtilization := new nat[csNets](_ => 0);
      subnetSelector := 0;
      live, faults := [], {};
      new;
      hide Partition, Counted, Load, AllOnes, PortTable, Complete, Cells;
      FreshTable(csInport);
      EmptyPartition(Table(), xCluster, yCluster, csNets);
      NothingCounted(subnetUtilization[..]);
    }

    /** The arrays have the dimensions of the cluster and of the cluster grid, which is no larger than one cluster. */
    ghost predicate Layout()
      reads `isGlobalSearch, `maxGridX, `maxGridY
    {
      && nlist != plist
      && xClusterNum <= xCluster && yClusterNum <= yCluster
      && Lengths() == ExpectedLengths(xCluster, yCluster, csNets, xClusterNum, yClusterNum)
      && (maxGridX, maxGridY) == if isGlobalSearch then (xClusterNum, yClusterNum) else (xCluster, yCluster)
    }

    ghost function Lengths(): ArrayLengths {
      ArrayLengths((csInport.Length0, csInport.Length1, csInport.Length2, csInport.Length3),
                   (detour.Length0, detour.Length1),
                   nlist.Length, plist.Length, subnetUtilization.Length,
                   (borderInput.Length0, borderInput.Length1, borderInput.Length2, borderInput.Length3),
                   (borderOutput.Length0, borderOutput.Length1, borderOutput.Length2, borderOutput.Length3),
                   (available.Length0, available.Length1, available.Length2))
    }

    ghost predicate Shaped()
      reads `isGlobalSearch, `maxGridX, `maxGridY, `lastNlist, `lastPlist
    {
      Layout() && lastNlist <= nlist.Length && lastPlist <= plist.Length
    }

    method EnableGlobalRouting()
      requires Shaped()
      modifies `maxGridX, `maxGridY, `isGlobalSearch
      ensures Shaped() && isGlobalSearch
    {
      maxGridX, maxGridY, isGlobalSearch := xClusterNum, yClusterNum, true;
    }

    method EnableLocalRouting()
      requires Shaped()
      modifies `maxGridX, `maxGridY, `isGlobalSearch
      ensures Shaped() && !isGlobalSearch
    {
      maxGridX, maxGridY, isGlobalSearch := xCluster, yCluster, false;
    }

    // ----- which hops are usable

    function IsElementReachable(s: Router, t: Router, input: Port, mp: nat): bool
      requires Layout() && IsSide(input) && mp < csNets && InGrid(s, maxGridX, maxGridY)
      reads `isGlobalSearch, `maxGridX, `maxGridY, csInport, borderInput, borderOutput, available
    {
      if !InGrid(t, maxGridX, maxGridY) then false
      else if isGlobalSearch then
        available[t.x, t.y, mp] && BorderOpen(s, t, input, mp)
      else csInport[t.x, t.y, mp, Code(input)] == Free
    }

    predicate BorderOpen(s: Router, t: Router, input: Port, mp: nat)
      requires Layout() && IsSide(input) && mp < csNets
      requires InGrid(s, xClusterNum, yClusterNum) && InGrid(t, xClusterNum, yClusterNum)
      reads `isGlobalSearch, `maxGridX, `maxGridY, borderInput, borderOutput
    {
      BorderWord(s, t, input, mp) < if input == East || input == West then maxYBorder else maxXBorder
    }

    /** The positions of a shared border taken on either of its two sides. */
    function BorderWord(s: Router, t: Router, input: Port, mp: nat): nat
      requires Layout() && IsSide(input) && mp < csNets
      requires InGrid(s, xClusterNum, yClusterNum) && InGrid(t, xClusterNum, yClusterNum)
      reads `isGlobalSearch, `maxGridX, `maxGridY, borderInput, borderOutput
    {
      Or(borderOutput[s.x, s.y, mp, Code(Opposite(input))], borderInput[t.x, t.y, mp, Code(input)])
    }

    /** The cluster crossings that are enabled and have a free position on the border. */
    ghost function GlobalLinks(mp: nat): (links: Links)
      requires Layout() && mp < csNets
      reads `isGlobalSearch, `maxGridX, `maxGridY, borderInput, borderOutput, available
      ensures OnGrid(links, xClusterNum, yClusterNum)
    {
      set u, v | u in Cells(xClusterNum, yClusterNum) && v in Cells(xClusterNum, yClusterNum) && Adjacent(u, v)
                 && available[v.x, v.y, mp] && BorderOpen(u, v, Facing(v, u), mp) :: (u, v)
    }

    /** The hops the search may take on one subnet. */
    ghost function UsableLinks(mp: nat): (links: Links)
      requires Layout() && mp < csNets
      reads `isGlobalSearch, `maxGridX, `maxGridY, csInport, borderInput, borderOutput, available
      ensures OnGrid(links, maxGridX, maxGridY)
    {
      if isGlobalSearch then GlobalLinks(mp) else LocalLinks(Table(), mp, xCluster, yCluster)
    }

    lemma ReachableIsUsable(u: Router, v: Router, mp: nat)
      requires Layout() && mp < csNets && InGrid(u, maxGridX, maxGridY) && Adjacent(u, v)
      ensures IsElementReachable(u, v, Facing(v, u), mp) <==> (u, v) in UsableLinks(mp)
    {
    }

    // ----- the values the arrays stand for

    ghost function Table(): Table
      requires csInport.Length3 == 6
      reads csInport
    {
      PortTable(csInport)
    }

    /** The labelled routers; -1 means unlabelled. */
    ghost function Labels(): map<Router, int>
      reads detour
    {
      map r | r in Cells(detour.Length0, detour.Length1) && detour[r.x, r.y] != -1 :: detour[r.x, r.y]
    }

    ghost function Popped(): (r: seq<Router>)
      requires lastPlist <= plist.Length
      reads `lastPlist, plist
      ensures |r| == lastPlist
    {
      plist[..lastPlist]
    }

    ghost function Pending(): (r: seq<Router>)
      requires lastNlist <= nlist.Length
      reads `lastNlist, nlist
      ensures |r| == lastNlist
    {
      nlist[..lastNlist]
    }

    /** What the search has written for a router, -1 when it has not been there. */
    function Detour(r: Router): (d: int)
      requires Layout() && InGrid(r, xCluster, yCluster)
      reads `isGlobalSearch, `maxGridX, `maxGridY, detour
      ensures d != -1 <==> r in Labels()
      ensures d != -1 ==> Labels()[r] == d
    {
      detour[r.x, r.y]
    }

    method SetPort(r: Router, net: nat, p: Port, e: Entry)
      requires Shaped() && InGrid(r, xCluster, yCluster) && net < csNets
      modifies csInport
      ensures Table() == old(Table())[Slot(r, net, p) := e]
    {
      assert forall q: Port :: Code(q) == Code(p) ==> q == p;
      csInport[r.x, r.y, net, Code(p)] := e;
    }

    method SetLabel(r: Router, d: nat)
      requires Shaped() && InGrid(r, xCluster, yCluster)
      modifies detour
      ensures Labels() == old(Labels())[r := d]
    {
      detour[r.x, r.y] := d;
    }

    method ClearSearch()
      requires Shaped()
      modifies `lastNlist, `lastPlist, detour
      ensures lastNlist == 0 && lastPlist == 0
      ensures Labels() == map[]
    {
      lastNlist, lastPlist := 0, 0;
      for i := 0 to xCluster
        modifies detour
        invariant forall x, y :: 0 <= x < i && 0 <= y < yCluster ==> detour[x, y] == -1
      {
        for j := 0 to yCluster
          modifies detour
          invariant forall x, y :: 0 <= x < i && 0 <= y < yCluster ==> detour[x, y] == -1
          invariant forall y :: 0 <= y < j ==> detour[i, y] == -1
        {
          detour[i, j] := -1;
        }
      }
    }

    /** The position of the least label among the waiting routers, the latest of them on a tie. */
    method FindMinDetour() returns (minIndex: nat)
      requires Shaped() && lastNlist > 0 && AllLabelled(Labels(), Pending())
      ensures LatestMin(Labels(), Pending(), minIndex)
    {
      assert forall j :: 0 <= j < lastNlist ==> nlist[j] == Pending()[j];
      ghost var labels := Labels();
      assert nlist[lastNlist - 1] in labels;
      minIndex := lastNlist - 1;
      var minDetour := detour[nlist[minIndex].x, nlist[minIndex].y];
      var k := lastNlist - 2;
      while k >= 0
        invariant -1 <= k < minIndex < lastNlist
        invariant minDetour == labels[nlist[minIndex]]
        invariant forall j :: k < j < lastNlist ==> minDetour <= labels[nlist[j]]
        invariant forall j :: minIndex < j < lastNlist ==> minDetour < labels[nlist[j]]
      {
        assert nlist[k] in labels;
        if detour[nlist[k].x, nlist[k].y] < minDetour {
          minDetour := detour[nlist[k].x, nlist[k].y];
          minIndex := k;
        }
        k := k - 1;
      }
    }

    /** Takes the waiting router with the least label, the latest of them on a tie, keeping the others in order. */
    method RemoveMinDetour() returns (r: Router, ghost i: int)
      requires Shaped() && lastNlist > 0 && AllLabelled(Labels(), Pending())
      modifies `lastNlist, nlist
      ensures lastNlist == old(lastNlist) - 1
      ensures LatestMin(Labels(), old(Pending()), i) && r == old(Pending())[i]
      ensures Pending() == RemoveAt(old(Pending()), i)
    {
      hide LatestMin, AllLabelled, Labels, Cells;
      ghost var labels, pending := Labels(), Pending();
      var minIndex := FindMinDetour();
      r, i := nlist[minIndex], minIndex;
      CloseGap(minIndex);
      assert Labels() == labels && LatestMin(labels, pending, minIndex);
    }

    method CloseGap(i: nat)
      requires Shaped() && i < lastNlist
      modifies `lastNlist, nlist
      ensures lastNlist == old(lastNlist) - 1
      ensures Pending() == RemoveAt(old(Pending()), i)
    {
      ghost var was := Pending();
      var m := i;
      while m < lastNlist - 1
        modifies nlist
        invariant i <= m <= lastNlist - 1
        invariant forall j :: 0 <= j < i ==> nlist[j] == was[j]
        invariant forall j :: i <= j < m ==> nlist[j] == was[j + 1]
        invariant forall j :: m <= j < lastNlist ==> nlist[j] == was[j]
      {
        nlist[m] := nlist[m + 1];
        m := m + 1;
      }
      lastNlist := lastNlist - 1;
      IsRemoved(was, Pending(), i);
    }

    // ----- Hadlock's detour-number search

    ghost predicate Searching(links: Links, s: Router, t: Router)
      requires lastPlist <= plist.Length && lastNlist <= nlist.Length
      reads `lastNlist, `lastPlist, detour, nlist, plist
    {
      Frontier(links, s, t, Labels(), Popped(), Pending()) && Monotone(Labels(), Popped(), Pending())
    }

    /** Everything popped before the last router has been expanded. */
    ghost predicate Behind(links: Links)
      requires lastPlist <= plist.Length
      reads `lastPlist, detour, plist
    {
      lastPlist > 0 && ExpandedUpTo(links, Labels(), Popped(), |Popped()| - 1)
    }

    /** Labels the free neighbours of the last popped router `u`, stopping at the target. */
    method ExpandVertex(u: Router, s: Router, t: Router, mp: nat) returns (found: bool)
      requires Shaped() && mp < csNets && InGrid(s, maxGridX, maxGridY)
      requires Searching(UsableLinks(mp), s, t) && Behind(UsableLinks(mp)) && t !in Labels()
      requires Popped()[|Popped()| - 1] == u && u in Labels()
      modifies `lastNlist, detour, nlist
      ensures Shaped() && Searching(UsableLinks(mp), s, t) && Behind(UsableLinks(mp))
      ensures found <==> t in Labels()
      ensures u in Labels() && Labels()[u] == old(Labels()[u])
      ensures found ==> Pending() != [] && TargetIsNext(Labels(), Popped(), Pending(), t) && Labels()[t] == Labels()[u]
      ensures !found ==> ExpandedUpTo(UsableLinks(mp), Labels(), Popped(), |Popped()|)
      ensures !found && old(DownTo(UsableLinks(mp), s, t, Labels(), u)) && NoDeadEnd(UsableLinks(mp), s, t) ==>
        Pending() != [] && LeadsDown(UsableLinks(mp), s, t, Labels(), Pending())
    {
      hide Frontier, Monotone, ExpandedUpTo, UsableLinks, Labels, Popped, Pending, Detour, Grown, Expanded, DownTo,
        NoDeadEnd, LeadsDown;
      ghost var links := UsableLinks(mp);
      found := false;
      NothingGrown(links, t, u, Labels(), Pending());
      PoppedAreLabelled(links, s, t, Labels(), Popped(), Pending(), maxGridX, maxGridY, |Popped()| - 1);
      for n := 0 to 4
        invariant Shaped() && Searching(links, s, t) && Behind(links)
        invariant t !in Labels() && !found
        invariant u in Labels() && Labels()[u] == old(Labels()[u])
        invariant Grown(links, t, u, old(Labels()), Labels(), old(Pending()), Pending())
        invariant forall k :: 0 <= k < n && (u, Step(u, Side(k))) in links ==> Step(u, Side(k)) in Labels()
      {
        var v := Step(u, Side(n));
        FacingIsMutual(u, v, Side(n));
        ReachableIsUsable(u, v, mp);
        if !InGrid(v, maxGridX, maxGridY) || Detour(v) != -1 || !IsElementReachable(u, v, Opposite(Side(n)), mp) {
          assert (u, v) in links ==> v in Labels();
          continue;
        }
        OneGrown(links, t, u, old(Labels()), Labels(), old(Pending()), Pending(), v);
        LabelVertex(u, v, s, t, links);
        if v == t {
          found := true;
          break;
        }
      }
      if !found {
        AllSides(links, maxGridX, maxGridY, u, Labels());
        LastExpanded(links, Labels(), Popped());
        if old(DownTo(links, s, t, Labels(), u)) && NoDeadEnd(links, s, t) {
          ExpansionLeadsDown(links, s, t, u, old(Labels()), Labels(), old(Pending()), Pending());
        }
      }
    }

    /** Labels a free neighbour of the last popped router and lets it wait. */
    method LabelVertex(u: Router, v: Router, s: Router, t: Router, ghost links: Links)
      requires Shaped() && OnGrid(links, maxGridX, maxGridY) && InGrid(s, maxGridX, maxGridY)
      requires Searching(links, s, t) && Behind(links) && (u, v) in links && InGrid(v, maxGridX, maxGridY)
      requires InGrid(u, maxGridX, maxGridY) && Popped()[|Popped()| - 1] == u && u in Labels() && v !in Labels()
      modifies `lastNlist, detour, nlist
      ensures Shaped() && Searching(links, s, t) && Behind(links)
      ensures Labels() == old(Labels())[v := Label(t, u, old(Labels()[u]), v)] && Pending() == old(Pending()) + [v]
    {
      hide Frontier, Monotone, ExpandedUpTo, Labels, Popped, Pending, Detour, OnGrid, Cells;
      PoppedAreLabelled(links, s, t, Labels(), Popped(), Pending(), maxGridX, maxGridY, |Popped()| - 1);
      RoomForOneMore(links, s, t, Labels(), Popped(), Pending(), maxGridX, maxGridY, v);
      GridFits(maxGridX, maxGridY, xCluster, yCluster);
      LabelStep(links, s, t, Labels(), Popped(), Pending(), v);
      SetLabel(v, if Manhattan(v, t) >= Manhattan(u, t) then Detour(u) + 1 else Detour(u));
      AddPending(v);
    }

    /** A router has no neighbours but the four behind its sides. */
    lemma AllSides(links: Links, w: nat, h: nat, u: Router, labels: map<Router, int>)
      requires OnGrid(links, w, h)
      requires forall k :: 0 <= k < 4 && (u, Step(u, Side(k))) in links ==> Step(u, Side(k)) in labels
      ensures Expanded(links, labels, u)
    {
      forall v | (u, v) in links ensures v in labels {
        assert Step(u, Side(Code(Facing(u, v)))) == v;
      }
    }

    method AddPending(r: Router)
      requires Shaped() && lastNlist < nlist.Length
      modifies `lastNlist, nlist
      ensures Shaped() && Pending() == old(Pending()) + [r]
    {
      nlist[lastNlist] := r;
      lastNlist := lastNlist + 1;
    }

    method AddPopped(r: Router)
      requires Shaped() && lastPlist < plist.Length
      modifies `lastPlist, plist
      ensures Shaped() && Popped() == old(Popped()) + [r]
    {
      plist[lastPlist] := r;
      lastPlist := lastPlist + 1;
    }

    /** Moves the best waiting router to the end of the popped ones. */
    method PopNext(s: Router, t: Router, mp: nat) returns (next: Router)
      requires Shaped() && mp < csNets && InGrid(s, maxGridX, maxGridY)
      requires Searching(UsableLinks(mp), s, t) && Popped() != [] && Pending() != []
      modifies `lastNlist, `lastPlist, nlist, plist
      ensures Shaped() && Searching(UsableLinks(mp), s, t)
      ensures Popped() == old(Popped()) + [next] && lastPlist == old(lastPlist) + 1 <= |Cells(maxGridX, maxGridY)|
      ensures old(ExpandedUpTo(UsableLinks(mp), Labels(), Popped(), |Popped()|)) ==> Behind(UsableLinks(mp))
      ensures TargetIsNext(Labels(), old(Popped()), old(Pending()), t) ==> next == t
      ensures LeadsDown(UsableLinks(mp), s, t, Labels(), old(Pending())) ==>
        DownTo(UsableLinks(mp), s, t, Labels(), next)
    {
      hide Frontier, Monotone, ExpandedUpTo, Searching, Behind, UsableLinks, Labels, Popped, Pending, Detour,
        DiscoveryList, Reachable, LatestMin, AllLabelled, BestPending, Cells, Lengths, InGrid, OnGrid, Route, LeadsDown,
        DownTo, TargetIsNext;
      ghost var links := UsableLinks(mp);
      RoomToPop(links, s, t);
      ghost var labels, popped, pending := Labels(), Popped(), Pending();
      ghost var i;
      next, i := RemoveMinDetour();
      PopStep(links, s, t, labels, popped, pending, i);
      AddPopped(next);
      LatestMinFacts(labels, popped, pending, i);
      assert Labels() == labels;
      if TargetIsNext(labels, popped, pending, t) { BestIsTarget(labels, popped, pending, i, t); }
      if LeadsDown(links, s, t, labels, pending) { NextIsDown(links, s, t, labels, pending, i); }
      SearchingNow(links, s, t);
      if ExpandedUpTo(links, labels, popped, |popped|) {
        AppendKeepsExpanded(links, labels, popped, next);
        BehindNow(links);
      }
    }

    lemma RoomToPop(links: Links, s: Router, t: Router)
      requires Shaped() && Searching(links, s, t) && OnGrid(links, maxGridX, maxGridY) && InGrid(s, maxGridX, maxGridY)
      requires Pending() != []
      ensures Frontier(links, s, t, Labels(), Popped(), Pending()) && Monotone(Labels(), Popped(), Pending())
      ensures AllLabelled(Labels(), Pending()) && Popped() != [] && Popped()[|Popped()| - 1] in Labels()
      ensures |Pending()| == lastNlist > 0 && |Popped()| == lastPlist < |Cells(maxGridX, maxGridY)|
      ensures lastPlist < plist.Length
      ensures forall i :: LatestMin(Labels(), Pending(), i) ==> BestPending(Labels(), Popped(), Pending(), i)
    {
      FrontierFits(links, s, t, Labels(), Popped(), Pending(), maxGridX, maxGridY);
      GridFits(maxGridX, maxGridY, xCluster, yCluster);
      PendingAreLabelled(links, s, t, Labels(), Popped(), Pending());
      hide Frontier, Cells;
      forall i | LatestMin(Labels(), Pending(), i) ensures BestPending(Labels(), Popped(), Pending(), i) {
        LatestMinFacts(Labels(), Popped(), Pending(), i);
      }
    }

    lemma SearchingNow(links: Links, s: Router, t: Router)
      requires Shaped() && Frontier(links, s, t, Labels(), Popped(), Pending())
      requires Monotone(Labels(), Popped(), Pending())
      ensures Searching(links, s, t)
    {
    }

    lemma BehindNow(links: Links)
      requires Shaped() && lastPlist > 0 && ExpandedUpTo(links, Labels(), Popped(), |Popped()| - 1)
      ensures Behind(links)
    {
    }

    /** Clears the previous search and puts the source on the list of popped routers. */
    method StartSearch(s: Router, t: Router, mp: nat)
      requires Shaped() && mp < csNets && InGrid(s, maxGridX, maxGridY)
      modifies `lastNlist, `lastPlist, detour, plist
      ensures Shaped() && Searching(UsableLinks(mp), s, t) && Behind(UsableLinks(mp))
      ensures Popped() == [s] && Labels() == map[s := 0]
    {
      GridFits(1, 1, xCluster, yCluster);
      StartFrontier(UsableLinks(mp), s, t);
      hide Frontier, Monotone, UsableLinks, Labels, ExpandedUpTo;
      ClearSearch();
      SetLabel(s, 0);
      AddPopped(s);
      assert Pending() == [] && Popped() == [s];
    }

    lemma LastIsLabelled(links: Links, s: Router, t: Router)
      requires Shaped() && Searching(links, s, t) && OnGrid(links, maxGridX, maxGridY) && InGrid(s, maxGridX, maxGridY)
      ensures 0 < lastPlist == |Popped()| && |Pending()| == lastNlist && Layout()
      ensures var u := Popped()[|Popped()| - 1];
        u in Labels() && Labels()[u] >= 0 && InGrid(u, maxGridX, maxGridY) && InGrid(u, xCluster, yCluster)
    {
      PoppedAreLabelled(links, s, t, Labels(), Popped(), Pending(), maxGridX, maxGridY, |Popped()| - 1);
    }

    lemma NoRouteLeft(links: Links, s: Router, t: Router)
      requires Shaped() && Searching(links, s, t) && lastNlist == 0
      requires t !in Labels() && ExpandedUpTo(links, Labels(), Popped(), |Popped()|)
      ensures !Reachable(links, s, t)
    {
      assert Pending() == [];
      ExhaustedIsUnreachable(links, s, t, Labels(), Popped());
    }

    lemma RouteFound(links: Links, s: Router, t: Router)
      requires Shaped() && Searching(links, s, t) && lastPlist > 0 && Popped()[|Popped()| - 1] == t
      requires OnGrid(links, maxGridX, maxGridY)
      ensures DiscoveryList(links, Popped()) && Popped()[0] == s && Reachable(links, s, t)
      ensures t in Labels() && Labels()[t] >= 0
      ensures |Route(links, Popped(), lastPlist - 1)| - 1 == Manhattan(s, t) + 2 * Labels()[t]
    {
      FinishedSearch(links, s, t, Labels(), Popped(), Pending());
    }

    /**
     * Searches for a route from `s` to `t`. With `minPath` it gives up as soon as a detour becomes necessary. Where
     * going nearer hop by hop never comes to a dead end it goes straight to `t`.
     */
    method Hadlock(s: Router, t: Router, mp: nat, minPath: bool) returns (found: bool)
      requires Shaped() && mp < csNets
      requires InGrid(s, maxGridX, maxGridY) && InGrid(t, maxGridX, maxGridY)
      modifies `lastNlist, `lastPlist, detour, nlist, plist
      ensures Shaped() && Searching(UsableLinks(mp), s, t)
      ensures found <==> t in Labels()
      ensures ListedInGrid()
      ensures found ==> DiscoveryList(UsableLinks(mp), Popped()) && Popped()[0] == s && Popped()[|Popped()| - 1] == t
      ensures found ==> Labels()[t] >= 0
      ensures found ==> |Route(UsableLinks(mp), Popped(), lastPlist - 1)| - 1 == Manhattan(s, t) + 2 * Labels()[t]
      ensures found ==> Reachable(UsableLinks(mp), s, t)
      ensures !minPath && !found ==> !Reachable(UsableLinks(mp), s, t)
      ensures found && minPath ==> Labels()[t] == 0
      ensures NoDeadEnd(UsableLinks(mp), s, t) ==> found && Labels()[t] == 0
    {
      hide NoDeadEnd, DownTo, LeadsDown, TargetIsNext, Frontier, Monotone, ExpandedUpTo, Searching, Behind, UsableLinks,
        Labels, Popped, Pending, Detour, DiscoveryList, Reachable, LatestMin, AllLabelled, BestPending, Cells, Lengths,
        InGrid, OnGrid, Route;
      ghost var links := UsableLinks(mp);
      StartSearch(s, t, mp);
      LastIsLabelled(links, s, t);
      ghost var direct := NoDeadEnd(links, s, t);
      StartsDown(links, s, t);
      var pVertex := s;
      found := s == t;
      while !found
        invariant Shaped() && Searching(links, s, t) && (!found ==> Behind(links))
        invariant 0 < lastPlist == |Popped()| && Popped()[|Popped()| - 1] == pVertex
        invariant found <==> t in Labels()
        invariant found ==> t == pVertex && (minPath || direct ==> Labels()[t] == 0)
        invariant direct && !found ==> DownTo(links, s, t, Labels(), pVertex)
        decreases |Cells(maxGridX, maxGridY)| - lastPlist
      {
        LastIsLabelled(links, s, t);
        if direct { HasNoDetour(links, s, t, Labels(), pVertex); }
        if minPath && Detour(pVertex) > 0 {
          AllInGrid(links, s, t);
          return;
        }
        found := ExpandVertex(pVertex, s, t, mp);
        if lastNlist == 0 {
          NoRouteLeft(links, s, t);
          AllInGrid(links, s, t);
          return;
        }
        pVertex := PopNext(s, t, mp);
      }
      RouteFound(links, s, t);
      AllInGrid(links, s, t);
    }

    lemma HasNoDetour(links: Links, s: Router, t: Router, labels: map<Router, int>, u: Router)
      requires DownTo(links, s, t, labels, u)
      ensures u in labels && labels[u] == 0
    {
    }

    lemma AllInGrid(links: Links, s: Router, t: Router)
      requires Shaped() && Searching(links, s, t) && OnGrid(links, maxGridX, maxGridY) && InGrid(s, maxGridX, maxGridY)
      ensures ListedInGrid()
    {
      FrontierFits(links, s, t, Labels(), Popped(), Pending(), maxGridX, maxGridY);
      assert forall j :: 0 <= j < lastPlist ==> Popped()[j] in Popped();
    }

    // ----- reserving the route that was found

    /** The first listed router with a usable hop into `cur`, or the one at position `i`, which is not tested. */
    method FindPrevious(cur: Router, i: nat, mp: nat) returns (k: nat)
      requires Shaped() && mp < csNets && i < lastPlist && InGrid(cur, maxGridX, maxGridY) && ListedInGrid()
      ensures k == Previous(UsableLinks(mp), Popped(), cur, 0, i)
    {
      hide UsableLinks, IsElementReachable;
      k := 0;
      while k < i
        invariant 0 <= k <= i
        invariant Previous(UsableLinks(mp), Popped(), cur, 0, i) == Previous(UsableLinks(mp), Popped(), cur, k, i)
      {
        var next := plist[k];
        if Manhattan(cur, next) == 1 {
          ReachableIsUsable(next, cur, mp);
          var inport := Facing(cur, next);
          if IsElementReachable(next, cur, inport, mp) {
            return;
          }
        }
        k := k + 1;
      }
    }

    ghost predicate ListedInGrid()
      requires lastPlist <= plist.Length
      reads `maxGridX, `maxGridY, `lastPlist, plist
    {
      forall j :: 0 <= j < lastPlist ==> InGrid(plist[j], maxGridX, maxGridY)
    }

    /** What a retrace between two ports starts from, whether or not the listed routers are still linked. */
    ghost function WayBack(mp: nat, beg: Port, end: Port): Way
      requires Shaped() && mp < csNets
      reads `isGlobalSearch, `maxGridX, `maxGridY, borderInput, borderOutput, available, `lastNlist, `lastPlist, plist
    {
      Way(isGlobalSearch, if isGlobalSearch then GlobalLinks(mp) else {}, Popped(), mp, beg, end, xCluster, yCluster)
    }

    /** How far a retrace has come: these routers are written, or listed in the cluster path. */
    ghost predicate Retraced(way: Way, t0: Table, path0: seq<Hop>, done: seq<Hop>)
      requires csInport.Length3 == 6 && way.popped != []
      reads csInport, `clusterPath
    {
      if way.isGlobal then Table() == t0 && clusterPath == done
      else clusterPath == path0 && Table() == Written(Marked(way, t0), way.net, done)
    }

    /** Sets the entry of one router: its port table, or its place in the cluster path. */
    method Reserve(cur: Router, mp: nat, inport: Port, outport: Port, ghost way: Way, ghost t0: Table,
                   ghost path0: seq<Hop>,
                   ghost done: seq<Hop>)
      requires Shaped() && mp == way.net < csNets && InGrid(cur, maxGridX, maxGridY) && way.isGlobal == isGlobalSearch
      requires way.popped != [] && Retraced(way, t0, path0, done)
      modifies csInport, `clusterPath
      ensures Retraced(way, t0, path0, done + [Hop(cur, inport, outport)])
      ensures Table() == After(way, old(Table()), Hop(cur, inport, outport))
    {
      hide Table;
      ghost var hop := Hop(cur, inport, outport);
      assert (done + [hop])[..|done|] == done;
      if !isGlobalSearch {
        SetPort(cur, mp, inport, To(outport));
      } else {
        clusterPath := clusterPath + [Hop(cur, inport, outport)];
      }
    }

    method AddUtilization(mp: nat, hops: nat)
      requires mp < subnetUtilization.Length
      modifies subnetUtilization
      ensures subnetUtilization[..] == old(subnetUtilization[..])[mp := old(subnetUtilization[mp]) + hops]
    {
      subnetUtilization[mp] := subnetUtilization[mp] + hops;
    }

    lemma WayFacts(mp: nat, beg: Port, end: Port)
      requires Shaped() && mp < csNets && lastPlist > 0
      ensures Layout() && csInport.Length3 == 6 && mp < subnetUtilization.Length && 0 < lastPlist <= plist.Length
      ensures var way := WayBack(mp, beg, end);
        && (way.isGlobal, way.net, way.inport, way.outport) == (isGlobalSearch, mp, beg, end)
        && |way.popped| == lastPlist && way.popped == Popped()
        && (forall k :: 0 <= k < lastPlist ==> way.popped[k] == plist[k])
        && Open(way, Table()) == UsableLinks(mp)
      ensures ListedInGrid() ==> forall k :: 0 <= k < lastPlist ==> InGrid(plist[k], maxGridX, maxGridY)
      ensures forall r :: !isGlobalSearch && InGrid(r, maxGridX, maxGridY) ==> InGrid(r, xCluster, yCluster)
    {
      hide LocalLinks, GlobalLinks, Table;
    }

    /** Marks the local output of a locally routed target, before any router is reserved. */
    method MarkTarget(target: Router, mp: nat, end: Port, ghost way: Way)
      requires Shaped() && mp == way.net < csNets && end == way.outport && way.isGlobal == isGlobalSearch
      requires way.popped != [] && target == way.popped[|way.popped| - 1] && InGrid(target, maxGridX, maxGridY)
      modifies csInport, `clusterPath
      ensures Retraced(way, old(Table()), old(clusterPath), []) && Table() == Marked(way, old(Table()))
    {
      hide Table;
      if isGlobalSearch {
        clusterPath := [];
      } else if end == LocalOut {
        SetPort(target, mp, LocalOut, Blocked);
      }
    }

    /** One router back: finds the listed router before it, and reserves it between the two. */
    method RetraceStep(cur: Router, i: nat, mp: nat, outport: Port, ghost way: Way, ghost t0: Table,
                       ghost path0: seq<Hop>,
                       ghost done: seq<Hop>)
      returns (k: nat, next: Router, inport: Port)
      requires Shaped() && mp < csNets && i < lastPlist && InGrid(cur, maxGridX, maxGridY) && ListedInGrid()
      requires way == WayBack(mp, way.inport, way.outport) && Retraced(way, t0, path0, done)
      modifies csInport, `clusterPath
      ensures k <= i && next == plist[k] && InGrid(next, maxGridX, maxGridY) && inport == Facing(cur, next)
      ensures Retraced(way, t0, path0, done + [Hop(cur, inport, outport)])
      ensures |way.popped| == lastPlist
      ensures old(Walk(way, Table(), i, cur, outport)) ==
        [Hop(cur, inport, outport)] + Walk(way, Table(), k - 1, next, Opposite(inport))
    {
      hide *;
      WayFacts(mp, way.inport, way.outport);
      ghost var t := Table();
      k := FindPrevious(cur, i, mp);
      next := plist[k];
      inport := Facing(cur, next);
      Reserve(cur, mp, inport, outport, way, t0, path0, done);
      WalkOn(way, t, i, cur, outport, k);
    }

    /** Reserves the first router of the route and, in a local search, counts the routers passed. */
    method ReserveSource(cur: Router, mp: nat, beg: Port, outport: Port, hops: nat, ghost way: Way, ghost t0: Table,
                         ghost path0: seq<Hop>,
                         ghost done: seq<Hop>)
      requires Shaped() && InGrid(cur, maxGridX, maxGridY) && mp < csNets && way.popped != []
      requires (way.isGlobal, way.net, way.inport) == (isGlobalSearch, mp, beg) && Retraced(way, t0, path0, done)
      requires !isGlobalSearch ==> hops == Passed(done)
      requires done + [Hop(cur, beg, outport)] == Marks(way, t0)
      modifies csInport, subnetUtilization, `clusterPath
      ensures RetraceDone(way, t0, path0, old(subnetUtilization[..]))
    {
      hide Marks, Retraced;
      ghost var hop := Hop(cur, beg, outport);
      Reserve(cur, mp, beg, outport, way, t0, path0, done);
      assert Passed(done + [hop]) == Passed(done) + if Passes(hop) then 1 else 0 by {
        assert (done + [hop])[..|done|] == done;
      }
      if !isGlobalSearch {
        AddUtilization(mp, if beg != LocalIn && outport != LocalOut then hops + 1 else hops);
      }
    }

    /** What a retrace leaves: the routers it passed in the cluster path, or in the port table and counted. */
    ghost predicate RetraceDone(way: Way, t0: Table, path0: seq<Hop>, utilization0: seq<nat>)
      requires csInport.Length3 == 6 && way.net < |utilization0| && way.popped != []
      reads csInport, `clusterPath, subnetUtilization
    {
      && Retraced(way, t0, path0, Marks(way, t0))
      && subnetUtilization[..] == if way.isGlobal then utilization0
                                  else utilization0[way.net := utilization0[way.net] + Passed(Marks(way, t0))]
    }

    /** Walks the popped routers back from the last one to the first and reserves those it passes between two ports. */
    method Retrace(mp: nat, beg: Port, end: Port)
      requires Shaped() && mp < csNets && lastPlist > 0 && ListedInGrid()
      modifies csInport, subnetUtilization, `clusterPath
      ensures RetraceDone(old(WayBack(mp, beg, end)), old(Table()), old(clusterPath), old(subnetUtilization[..]))
    {
      hide *;
      WayFacts(mp, beg, end);
      ghost var way, t0, path0, utilization0 := WayBack(mp, beg, end), Table(), clusterPath, subnetUtilization[..];
      ghost var done := [];
      MarkTarget(plist[lastPlist - 1], mp, end, way);
      FirstMark(way, t0);
      var cur, outport, hops := plist[lastPlist - 1], end, 0;
      if lastPlist == 1 {
        if !isGlobalSearch {
          ReserveSource(cur, mp, beg, end, 0, way, t0, path0, done);
        } else {
          NotRecorded(way, t0, path0, utilization0);
        }
        return;
      }
      var i := lastPlist as int - 1;
      while i >= 0
        invariant -1 <= i < lastPlist && InGrid(cur, maxGridX, maxGridY) && Retraced(way, t0, path0, done)
        invariant done + Walk(way, Table(), i, cur, outport) == Marks(way, t0)
        invariant !isGlobalSearch ==> hops == Passed(done)
        invariant subnetUtilization[..] == utilization0
      {
        var k, next, inport := RetraceStep(cur, i, mp, outport, way, t0, path0, done);
        OneMorePassed(done, Hop(cur, inport, outport));
        if !isGlobalSearch && outport != LocalOut {
          hops := hops + 1;
        }
        done := done + [Hop(cur, inport, outport)];
        outport, cur, i := Opposite(inport), next, k as int - 1;
      }
      WalkEnds(way, Table(), cur, outport);
      ReserveSource(cur, mp, beg, outport, hops, way, t0, path0, done);
    }

    lemma NotRecorded(way: Way, t0: Table, path0: seq<Hop>, utilization0: seq<nat>)
      requires csInport.Length3 == 6 && way.net < |utilization0| && way.isGlobal && |way.popped| == 1
      requires Retraced(way, t0, path0, []) && subnetUtilization[..] == utilization0
      ensures RetraceDone(way, t0, path0, utilization0)
    {
    }

    // ----- opening and closing circuits

    /** The port table holds the live circuits and the faults, and the counters hold the routers the circuits pass. */
    ghost predicate Books()
      reads `isGlobalSearch, `maxGridX, `maxGridY, `subnetSelector, `live, `faults, csInport, subnetUtilization
    {
      && Layout() && subnetSelector < csNets
      && Partition(Table(), live, faults, xCluster, yCluster, csNets)
      && Counted(subnetUtilization[..], live)
    }

    /** Opens a circuit on the given subnet if both local ports are free and the search finds a route. */
    method TrySubnet(s: Router, t: Router, mp: nat, minPath: bool) returns (found: bool)
      requires Shaped() && Books() && !isGlobalSearch && mp < csNets && InGrid(s, xCluster, yCluster)
      requires InGrid(t, xCluster, yCluster)
      modifies `lastNlist, `lastPlist, detour, nlist, plist, csInport, subnetUtilization, `clusterPath, `live
      ensures Shaped() && Books()
      ensures found ==> CanConnect(old(Table()), mp, s, t, xCluster, yCluster)
      ensures found ==> exists c, d :: Connects(c, mp, s, t, d) && (minPath ==> d == 0) && live == old(live) + [c]
      ensures !found ==> Table() == old(Table()) && live == old(live) && subnetUtilization[..] == old(subnetUtilization[..])
      ensures !found && !minPath ==> !CanConnect(old(Table()), mp, s, t, xCluster, yCluster)
      ensures !found && minPath ==> !ConnectsDirectly(old(Table()), mp, s, t, xCluster, yCluster)
    {
      hide *;
      LocalFacts(s, t, mp);
      found := false;
      if csInport[s.x, s.y, mp, Code(LocalIn)] == Free && csInport[t.x, t.y, mp, Code(LocalOut)] == Free {
        found := Hadlock(s, t, mp, minPath);
        if found {
          OpenFound(s, t, mp, Labels()[t]);
        }
      }
    }

    lemma LocalFacts(s: Router, t: Router, mp: nat)
      requires Shaped() && Books() && !isGlobalSearch && mp < csNets && InGrid(s, xCluster, yCluster)
      requires InGrid(t, xCluster, yCluster)
      ensures Shaped() && Layout() && InGrid(s, maxGridX, maxGridY) && InGrid(t, maxGridX, maxGridY)
      ensures csInport.Length3 == 6 && 0 <= s.x < csInport.Length0 && 0 <= s.y < csInport.Length1
      ensures mp < csInport.Length2
      ensures 0 <= t.x < csInport.Length0 && 0 <= t.y < csInport.Length1 && Code(LocalIn) == 5 && Code(LocalOut) == 4
      ensures CanConnect(Table(), mp, s, t, xCluster, yCluster) <==>
        && csInport[s.x, s.y, mp, Code(LocalIn)] == Free && csInport[t.x, t.y, mp, Code(LocalOut)] == Free
        && Reachable(UsableLinks(mp), s, t)
      ensures ConnectsDirectly(Table(), mp, s, t, xCluster, yCluster) <==>
        && csInport[s.x, s.y, mp, Code(LocalIn)] == Free && csInport[t.x, t.y, mp, Code(LocalOut)] == Free
        && NoDeadEnd(UsableLinks(mp), s, t)
    {
      hide LocalLinks, Reachable, NoDeadEnd, Partition, Counted;
      EndFacts(s, t, LocalIn, LocalOut, mp);
    }

    // ----- committing a route found earlier

    /** The discovery tree's branch to the last popped router, as a circuit between two ports. */
    ghost function FoundCircuit(mp: nat, beg: Port, end: Port): Circuit
      requires Shaped() && mp < csNets && DiscoveryList(UsableLinks(mp), Popped())
      reads `isGlobalSearch, `maxGridX, `maxGridY, csInport, borderInput, borderOutput, available, `lastNlist,
            `lastPlist, plist
    {
      Circuit(mp, Route(UsableLinks(mp), Popped(), lastPlist - 1), beg, end)
    }

    ghost function RawPlan(mp: nat, beg: Port, end: Port): RetracePlan
      requires Shaped() && mp < csNets && DiscoveryList(UsableLinks(mp), Popped())
      reads `isGlobalSearch, `maxGridX, `maxGridY, csInport, borderInput, borderOutput, available, `lastNlist,
            `lastPlist, plist
    {
      RetracePlan(UsableLinks(mp), Popped(), Table(), FoundCircuit(mp, beg, end), xCluster, yCluster, csNets)
    }

    /** A search just finished is what its retrace is planned from. */
    lemma MakePlan(mp: nat, beg: Port, end: Port)
      requires Shaped() && mp < csNets && beg != LocalOut && end != LocalIn
      requires DiscoveryList(UsableLinks(mp), Popped()) && ListedInGrid()
      ensures IsPlan(RawPlan(mp, beg, end)) && |Popped()| == lastPlist > 0
      ensures var plan := RawPlan(mp, beg, end);
        plan.circuit == FoundCircuit(mp, beg, end) && WayOf(plan, isGlobalSearch) == WayBack(mp, beg, end)
    {
      hide LocalLinks, GlobalLinks, HasParent, Distinct;
      RouteIsSimplePath(UsableLinks(mp), Popped(), lastPlist - 1);
      assert Complete(Table(), xCluster, yCluster, csNets);
      assert forall r :: r in Popped() ==> InGrid(r, maxGridX, maxGridY);
    }

    /**
     * The listed routers are those of the search planned from, and since then these ports, and no others, have turned
     * faulty.
     */
    ghost predicate Remembers(plan: Plan, slots: set<Slot>)
      requires Shaped()
      reads `isGlobalSearch, `maxGridX, `maxGridY, csInport, `lastNlist, `lastPlist, plist
    {
      && !isGlobalSearch && Popped() == plan.popped && (plan.w, plan.h, plan.nets) == (xCluster, yCluster, csNets)
      && IsLocalPlan(plan) && Table() == Faulted(plan.table, slots)
    }

    lemma FaultsAreRemembered(plan: Plan, slots: set<Slot>, t0: Table, more: set<Slot>)
      requires Shaped() && !isGlobalSearch && Popped() == plan.popped
      requires (plan.w, plan.h, plan.nets) == (xCluster, yCluster, csNets)
      requires IsLocalPlan(plan) && t0 == Faulted(plan.table, slots) && Table() == Faulted(t0, more)
      ensures Remembers(plan, slots + more)
    {
      hide IsLocalPlan, IsPlan, Faulted, Table;
      FaultedTwice(plan.table, slots, more);
    }

    lemma RememberedFacts(plan: Plan, slots: set<Slot>)
      requires Shaped() && Remembers(plan, slots)
      ensures !isGlobalSearch && lastPlist > 0 && ListedInGrid() && plan.circuit.net < csNets && csInport.Length3 == 6
      ensures WayBack(plan.circuit.net, plan.circuit.inport, plan.circuit.outport) == WayOf(plan, false)
      ensures var way := WayOf(plan, false); !way.isGlobal && way.popped == plan.popped != [] && way.net == plan.circuit.net
      ensures IsLocalPlan(plan) && Table() == Faulted(plan.table, slots)
    {
      hide IsLocalPlan, Faulted, Table;
      PoppedFits(plan);
      assert forall j :: 0 <= j < lastPlist ==> plist[j] == plan.popped[j];
    }

    /**
     * Main result: a retrace of a remembered route sets the routers of that route exactly when its hops survive the
     * ports lost since the search, and then it installs the circuit.
     */
    lemma HeldRouteSurvives(plan: Plan, slots: set<Slot>)
      requires Shaped() && Remembers(plan, slots)
      ensures plan.circuit.route != [] && plan.popped != [] && plan.circuit.net < csNets && csInport.Length3 == 6
      ensures WayBack(plan.circuit.net, plan.circuit.inport, plan.circuit.outport) == WayOf(plan, false)
      ensures Marks(WayOf(plan, false), Table()) == AllEntries(plan.circuit)
        <==> Survives(plan.popped, plan.circuit, slots)
      ensures Survives(plan.popped, plan.circuit, slots) ==>
        var marks := Marks(WayOf(plan, false), Table());
        && Installed(Table(), Written(Marked(WayOf(plan, false), Table()), plan.circuit.net, marks), plan.circuit)
        && Passed(marks) == Hops(plan.circuit)
    {
      hide *;
      RememberedFacts(plan, slots);
      RetraceFollowsRoute(plan, false, slots, Table());
      PlannedInstall(plan, slots);
      EntriesCount(plan.circuit);
    }

    /**
     * Reserves a remembered route between free ports as a new live circuit, where none of its ports has turned faulty
     * since.
     */
    method CommitHeldRoute(mp: nat, beg: Port, end: Port, ghost plan: Plan, ghost slots: set<Slot>)
      requires Shaped() && Books() && Remembers(plan, slots) && EndsFree(plan)
      requires (mp, beg, end) == (plan.circuit.net, plan.circuit.inport, plan.circuit.outport)
      requires forall s :: s in slots ==> !Owns(plan.circuit, s)
      modifies csInport, subnetUtilization, `clusterPath, `live
      ensures Shaped() && Books() && live == old(live) + [plan.circuit]
    {
      hide *;
      RememberedFacts(plan, slots);
      OthersDoNotMatter(plan.popped, plan.circuit, slots);
      HeldRouteSurvives(plan, slots);
      HeldRouteIsFree(plan, slots);
      ghost var t0, u0, path0 := Table(), subnetUtilization[..], clusterPath;
      Retrace(mp, beg, end);
      live := live + [plan.circuit];
      Opened(WayOf(plan, false), t0, u0, path0, old(live), plan.circuit);
    }

    lemma HeldRouteIsFree(plan: Plan, slots: set<Slot>)
      requires Shaped() && Books() && Remembers(plan, slots) && EndsFree(plan)
      requires forall s :: s in slots ==> !Owns(plan.circuit, s)
      ensures csInport.Length3 == 6 && plan.circuit.net < subnetUtilization.Length && subnetSelector < csNets
      ensures WellFormed(plan.circuit, xCluster, yCluster, csNets) && AllFree(Table(), plan.circuit)
      ensures Partition(Table(), live, faults, xCluster, yCluster, csNets) && Counted(subnetUtilization[..], live)
    {
      hide WellFormed, EndsFree, IsLocalPlan, Partition, Counted, Table;
      PlannedCircuitIsFree(plan);
    }

    /** The books after a local retrace that installs a circuit on free ports. */
    lemma Opened(way: Way, t0: Table, u0: seq<nat>, path0: seq<Hop>, live0: seq<Circuit>, c: Circuit)
      requires Shaped() && subnetSelector < csNets && !way.isGlobal && way.popped != [] && c.net == way.net < |u0|
      requires Partition(t0, live0, faults, xCluster, yCluster, csNets) && Counted(u0, live0)
      requires WellFormed(c, xCluster, yCluster, csNets) && AllFree(t0, c)
      requires Installed(t0, Written(Marked(way, t0), c.net, Marks(way, t0)), c) && Passed(Marks(way, t0)) == Hops(c)
      requires RetraceDone(way, t0, path0, u0) && live == live0 + [c]
      ensures Shaped() && Books()
    {
      hide Partition, Counted, Installed, Marks, Marked, Written, WellFormed, AllFree, Table;
      CommitKeepsBooks(t0, Table(), live0, faults, c, xCluster, yCluster, csNets, u0, subnetUtilization[..]);
    }

    /** Whether the ports a detailed route begins and ends at are free; a border port is not tested. */
    ghost predicate LocalEndsFree(source: Router, target: Router, entryBorder: Port, exitBorder: Port, mp: nat)
      requires csInport.Length3 == 6
      reads csInport
    {
      && (entryBorder == LocalIn ==> Slot(source, mp, LocalIn) in Table() && Table()[Slot(source, mp, LocalIn)] == Free)
      && (exitBorder == LocalOut ==>
        Slot(target, mp, LocalOut) in Table() && Table()[Slot(target, mp, LocalOut)] == Free)
    }

    /** A detailed route exists, as far as the local end ports and the hops tell. */
    ghost predicate IsAnswerable(source: Router, target: Router, entryBorder: Port, exitBorder: Port, mp: nat)
      requires csInport.Length3 == 6
      reads csInport
    {
      && LocalEndsFree(source, target, entryBorder, exitBorder, mp)
      && Reachable(LocalLinks(Table(), mp, xCluster, yCluster), source, target)
    }

    lemma EndFacts(source: Router, target: Router, entryBorder: Port, exitBorder: Port, mp: nat)
      requires Shaped() && !isGlobalSearch && mp < csNets && InGrid(source, xCluster, yCluster)
      requires InGrid(target, xCluster, yCluster)
      ensures InGrid(source, maxGridX, maxGridY) && InGrid(target, maxGridX, maxGridY) && Layout()
      ensures csInport.Length3 == 6
      ensures 0 <= source.x < csInport.Length0 && 0 <= source.y < csInport.Length1 && mp < csInport.Length2
      ensures 0 <= target.x < csInport.Length0 && 0 <= target.y < csInport.Length1 && Code(LocalIn) == 5
      ensures Code(LocalOut) == 4
      ensures IsAnswerable(source, target, entryBorder, exitBorder, mp) <==>
        && Reachable(LocalLinks(Table(), mp, xCluster, yCluster), source, target)
        && (entryBorder == LocalIn ==> csInport[source.x, source.y, mp, Code(LocalIn)] == Free)
        && (exitBorder == LocalOut ==> csInport[target.x, target.y, mp, Code(LocalOut)] == Free)
    {
      hide Reachable, LocalLinks;
      assert Table()[Slot(source, mp, LocalIn)] == csInport[source.x, source.y, mp, Code(LocalIn)];
      assert Table()[Slot(target, mp, LocalOut)] == csInport[target.x, target.y, mp, Code(LocalOut)];
    }

    lemma AnswerIsRemembered(mp: nat, beg: Port, end: Port)
      requires Shaped() && mp < csNets && !isGlobalSearch && beg != LocalOut && end != LocalIn
      requires DiscoveryList(UsableLinks(mp), Popped()) && ListedInGrid()
      requires UsableLinks(mp) == LocalLinks(Table(), mp, xCluster, yCluster)
      ensures IsPlan(RawPlan(mp, beg, end)) && |Popped()| == lastPlist > 0
      ensures Last(FoundCircuit(mp, beg, end)) == Popped()[lastPlist - 1]
      ensures Remembers(RawPlan(mp, beg, end), {})
    {
      hide UsableLinks, DiscoveryList, LocalLinks, IsPlan, Table;
      MakePlan(mp, beg, end);
      FaultedNowhere(Table());
    }

    /** Answers for a route through this cluster, and keeps it in the list of popped routers. */
    method DetailedRouting(source: Router, target: Router, entryBorder: Port, exitBorder: Port,
                           mp: nat) returns (ok: bool)
      requires Shaped() && mp < csNets && InGrid(source, xCluster, yCluster) && InGrid(target, xCluster, yCluster)
      requires entryBorder != LocalOut && exitBorder != LocalIn
      modifies `lastNlist, `lastPlist, `maxGridX, `maxGridY, `isGlobalSearch, detour, nlist, plist
      ensures Shaped() && !isGlobalSearch
      ensures ok <==> IsAnswerable(source, target, entryBorder, exitBorder, mp)
      ensures ok ==> DiscoveryList(UsableLinks(mp), Popped()) && IsPlan(RawPlan(mp, entryBorder, exitBorder))
      ensures ok ==> Popped()[0] == source && Last(FoundCircuit(mp, entryBorder, exitBorder)) == target
      ensures ok ==> Remembers(RawPlan(mp, entryBorder, exitBorder), {})
    {
      hide *;
      EnableLocalRouting();
      EndFacts(source, target, entryBorder, exitBorder, mp);
      LocallyUsable(mp);
      if (entryBorder == LocalIn && csInport[source.x, source.y, mp, Code(LocalIn)] != Free)
         || (exitBorder == LocalOut && csInport[target.x, target.y, mp, Code(LocalOut)] != Free) {
        return false;
      }
      ok := Hadlock(source, target, mp, false);
      if ok {
        LocallyUsable(mp);
        AnswerIsRemembered(mp, entryBorder, exitBorder);
      }
    }

    /** Reserves the route a successful local search has left in the list of popped routers. */
    method OpenFound(s: Router, t: Router, mp: nat, ghost d: int)
      requires Shaped() && Books() && !isGlobalSearch && mp < csNets
      requires CanConnect(Table(), mp, s, t, xCluster, yCluster) && ListedInGrid()
      requires DiscoveryList(UsableLinks(mp), Popped()) && Popped()[0] == s && Popped()[|Popped()| - 1] == t
      requires d >= 0 && |Route(UsableLinks(mp), Popped(), lastPlist - 1)| - 1 == Manhattan(s, t) + 2 * d
      modifies csInport, subnetUtilization, `clusterPath, `live
      ensures Shaped() && Books()
      ensures exists c :: Connects(c, mp, s, t, d) && live == old(live) + [c]
    {
      hide *;
      FoundIsRemembered(s, t, mp, d);
      ghost var plan := RawPlan(mp, LocalIn, LocalOut);
      CommitHeldRoute(mp, LocalIn, LocalOut, plan, {});
      assert Connects(plan.circuit, mp, s, t, d);
    }

    lemma FoundIsRemembered(s: Router, t: Router, mp: nat, d: int)
      requires Shaped() && !isGlobalSearch && mp < csNets && CanConnect(Table(), mp, s, t, xCluster, yCluster)
      requires ListedInGrid()
      requires DiscoveryList(UsableLinks(mp), Popped()) && Popped()[0] == s && Popped()[|Popped()| - 1] == t
      requires d >= 0 && |Route(UsableLinks(mp), Popped(), lastPlist - 1)| - 1 == Manhattan(s, t) + 2 * d
      ensures Shaped() && mp < csNets && DiscoveryList(UsableLinks(mp), Popped())
      ensures IsPlan(RawPlan(mp, LocalIn, LocalOut))
      ensures Remembers(RawPlan(mp, LocalIn, LocalOut), {})
      ensures Connects(RawPlan(mp, LocalIn, LocalOut).circuit, mp, s, t, d)
      ensures EndsFree(RawPlan(mp, LocalIn, LocalOut))
      ensures var c := RawPlan(mp, LocalIn, LocalOut).circuit; (c.net, c.inport, c.outport) == (mp, LocalIn, LocalOut)
    {
      hide UsableLinks, DiscoveryList, LocalLinks, Remembers;
      LocallyUsable(mp);
      AnswerIsRemembered(mp, LocalIn, LocalOut);
    }

    lemma LocallyUsable(mp: nat)
      requires Layout() && mp < csNets && !isGlobalSearch
      ensures UsableLinks(mp) == LocalLinks(Table(), mp, xCluster, yCluster)
    {
    }

    /**
     * Opens a circuit. A first round over all subnets, from the one after the last tried, accepts only routes without a
     * detour; a second round takes the first subnet that can connect the two at all.
     */
    method ConnectionSetup(s: Router, t: Router) returns (r: Option<nat>)
      requires Shaped() && Books() && !isGlobalSearch && InGrid(s, xCluster, yCluster) && InGrid(t, xCluster, yCluster)
      modifies `lastNlist, `lastPlist, `subnetSelector, detour, nlist, plist, csInport, subnetUtilization,
               `clusterPath, `live
      ensures Shaped() && Books()
      ensures r.None? <==> forall n :: 0 <= n < csNets ==> !CanConnect(old(Table()), n, s, t, xCluster, yCluster)
      ensures r.None? ==> Table() == old(Table()) && live == old(live) && subnetUtilization[..] == old(subnetUtilization[..])
      ensures r.Some? ==> r.value < csNets && CanConnect(old(Table()), r.value, s, t, xCluster, yCluster)
      ensures r.Some? ==> subnetSelector == r.value && exists c, d ::
        Connects(c, r.value, s, t, d) && live == old(live) + [c] && (d > 0 ==>
          && IsFirst(old(Table()), old(subnetSelector), r.value, s, t)
          && forall n: nat :: n < csNets ==> !ConnectsDirectly(old(Table()), n, s, t, xCluster, yCluster))
      ensures r.Some? ==> forall n: nat :: n < csNets && Precedes(old(subnetSelector), csNets, n, r.value) ==>
        !ConnectsDirectly(old(Table()), n, s, t, xCluster, yCluster)
    {
      hide Books, CanConnect, ConnectsDirectly, Connects, Table, InGrid, Layout, Lengths;
      SelectorInRange();
      ghost var first := subnetSelector;
      var minPath, i := true, 0;
      while i < csNets
        invariant Shaped() && Books() && 0 <= first < csNets
        invariant Table() == old(Table()) && live == old(live) && subnetUtilization[..] == old(subnetUtilization[..])
        invariant 0 <= i <= csNets && (minPath ==> i < csNets)
        invariant subnetSelector == if first + i < csNets then first + i else first + i - csNets
        invariant first == old(subnetSelector)
        invariant !minPath ==> forall n :: 0 <= n < csNets && Tried(first, i, csNets, n) ==>
          !CanConnect(old(Table()), n, s, t, xCluster, yCluster)
        invariant forall n :: 0 <= n < csNets && (minPath ==> Tried(first, i, csNets, n)) ==>
          !ConnectsDirectly(old(Table()), n, s, t, xCluster, yCluster)
        decreases minPath, csNets - i
      {
        AdvanceSelector();
        var found := TrySubnet(s, t, subnetSelector, minPath);
        if found {
          TriedBefore(first, i, csNets, subnetSelector);
          return Some(subnetSelector);
        }
        i := i + 1;
        if minPath && i == csNets {
          AllTried(first, csNets);
          minPath := false;
          i := 0;
          first := subnetSelector;
        }
      }
      AllTried(first, csNets);
      return None;
    }

    /** No subnet that comes before m, going round from the one after the last tried, can connect the two. */
    ghost predicate IsFirst(table: Table, lastTried: int, m: nat, s: Router, t: Router) {
      forall n: nat :: n < csNets && Precedes(lastTried, csNets, n, m) ==>
        !CanConnect(table, n, s, t, xCluster, yCluster)
    }

    lemma SelectorInRange()
      requires Books()
      ensures subnetSelector < csNets && csInport.Length3 == 6
    {
    }

    /** Moves the round-robin selector to the next subnet. */
    method AdvanceSelector()
      requires Books()
      modifies `subnetSelector
      ensures Books() && subnetSelector == if old(subnetSelector) == csNets - 1 then 0 else old(subnetSelector) + 1
    {
      subnetSelector := if subnetSelector == csNets - 1 then 0 else subnetSelector + 1;
    }

    /** Follows the k-th live circuit from its source, freeing it, to its target or to where it leaves the cluster. */
    method ConnectionRelease(s: Router, t: Router, mp: nat, inport: Port, ghost k: nat) returns (r: ReleaseEnd)
      requires Shaped() && Books() && k < |live| && ReleasesTo(live[k], s, t, mp, inport)
      modifies csInport, subnetUtilization, `live
      ensures Shaped() && Books()
      ensures live == RemoveAt(old(live), k) && Cleared(old(Table()), Table(), old(live[k]))
      ensures var c := old(live[k]);
        r == if c.outport == LocalOut then AtTarget else LeavesAt(Last(c), Opposite(c.outport))
    {
      hide Books, Table, InGrid, Lengths, Partition, Counted, WellFormed, Carries, Complete, Cleared, ClearedUpTo,
        InPort, OutPort;
      LiveCircuit(k);
      ghost var c, t0, live0, u0 := live[k], Table(), live, subnetUtilization[..];
      ghost var j := 0;
      var cur, port, hops := s, inport, 0;
      while cur != t
        invariant live == live0 && subnetUtilization[..] == u0
        invariant 0 <= j < |c.route| && cur == c.route[j] && port == InPort(c, j)
        invariant ClearedUpTo(t0, Table(), c, j)
        invariant hops == if inport == LocalIn && j > 0 then j - 1 else j
        decreases |c.route| - j
      {
        ReleaseFacts(t0, Table(), c, j, s, t, xCluster, yCluster, csNets);
        var outport := OutputOf(cur, mp, port);
        if port != LocalIn && outport != LocalOut {
          hops := hops + 1;
        }
        SetPort(cur, mp, port, Free);
        var next, nextInport := Step(cur, outport), Opposite(outport);
        if !InGrid(next, xCluster, yCluster) {
          ClearAll(t0, Table(), c);
          FinishRelease(mp, hops, t0, live0, k);
          return LeavesAt(cur, nextInport);
        }
        cur, port := next, nextInport;
        j := j + 1;
      }
      ReleaseArrived(t0, Table(), c, j, s, t, xCluster, yCluster, csNets);
      SetPort(cur, mp, port, Free);
      SetPort(cur, mp, LocalOut, Free);
      FinishRelease(mp, hops, t0, live0, k);
      return AtTarget;
    }

    /**
     * The ports a fault report names: one port of a router on one subnet, or with code 6 all its ports on all subnets.
     */
    ghost function Reported(r: Router, subnet: nat, code: int): (slots: set<Slot>)
      ensures forall x :: x in slots <==>
        && InGrid(x.at, xCluster, yCluster) && x.net < csNets && x.at == r
        && (code == 6 || (x.net == subnet && Code(x.port) == code))
    {
      set x | x in AllSlots(xCluster, yCluster, csNets) && x.at == r && (code == 6 || (x.net == subnet && Code(x.port) == code))
    }

    /** The ports of a router on the subnets before s, and the first p ports on s. */
    ghost function ReportedUpTo(r: Router, s: nat, p: nat): (slots: set<Slot>)
      ensures forall x :: x in slots <==>
        InGrid(x.at, xCluster, yCluster) && x.net < csNets && x.at == r && (x.net < s || (x.net == s && Code(x.port) < p))
    {
      set x | x in AllSlots(xCluster, yCluster, csNets) && x.at == r && (x.net < s || (x.net == s && Code(x.port) < p))
    }

    /**
     * Blocks the ports a fault report names, whatever they lead to; not ok stands for the error loop of an invalid
     * code. The books stay right exactly when no live circuit uses one of them.
     */
    method SetFault(r: Router, subnet: nat, code: int) returns (ok: bool)
      requires Shaped() && InGrid(r, xCluster, yCluster) && (code != 6 ==> subnet < csNets)
      modifies csInport, `faults
      ensures Shaped() && (ok <==> 0 <= code <= 6)
      ensures Table() == if ok then Faulted(old(Table()), Reported(r, subnet, code)) else old(Table())
      ensures faults == old(faults) + if ok then Reported(r, subnet, code) else {}
      ensures old(Books()) ==> (Books() <==> !ok || forall x :: x in Reported(r, subnet, code) ==> !Occupied(live, x))
    {
      ghost var t0, faults0 := Table(), faults;
      if 0 <= code < 6 {
        var x := BlockPort(r, subnet, code);
        assert Reported(r, subnet, code) == {x};
      } else if code == 6 {
        BlockRouter(r);
        assert Reported(r, subnet, 6) == ReportedUpTo(r, csNets, 0);
      } else {
        return false;
      }
      ok := true;
      faults := faults + Reported(r, subnet, code);
      if subnetSelector < csNets && Partition(t0, live, faults0, xCluster, yCluster, csNets)
         && Counted(subnetUtilization[..], live) {
        BooksWithFaults(t0, faults0, Reported(r, subnet, code));
      }
    }

    method BlockPort(r: Router, net: nat, code: nat) returns (ghost x: Slot)
      requires Shaped() && InGrid(r, xCluster, yCluster) && net < csNets && code < 6
      modifies csInport
      ensures x.at == r && x.net == net && Code(x.port) == code && forall p :: Code(p) == code ==> p == x.port
      ensures Table() == Faulted(old(Table()), {x})
    {
      x := Slot(r, net, PortOf(code));
      csInport[r.x, r.y, net, code] := Blocked;
    }

    method BlockRouter(r: Router)
      requires Shaped() && InGrid(r, xCluster, yCluster)
      modifies csInport
      ensures Table() == Faulted(old(Table()), ReportedUpTo(r, csNets, 0))
    {
      hide Table, Faulted;
      ghost var t0 := Table();
      FaultedNowhere(t0);
      assert ReportedUpTo(r, 0, 0) == {};
      for s := 0 to csNets
        invariant Table() == Faulted(t0, ReportedUpTo(r, s, 0))
      {
        for p := 0 to 6
          invariant Table() == Faulted(t0, ReportedUpTo(r, s, p))
        {
          var x := BlockPort(r, s, p);
          assert ReportedUpTo(r, s, p + 1) == ReportedUpTo(r, s, p) + {x};
          FaultedTwice(t0, ReportedUpTo(r, s, p), {x});
        }
        assert ReportedUpTo(r, s, 6) == ReportedUpTo(r, s + 1, 0);
      }
    }

    lemma FaultedNowhere(t: Table)
      ensures Faulted(t, {}) == t
    {
    }

    lemma FaultedTwice(t: Table, a: set<Slot>, b: set<Slot>)
      ensures Faulted(Faulted(t, a), b) == Faulted(t, a + b)
    {
    }

    lemma BooksWithFaults(t0: Table, faults0: set<Slot>, slots: set<Slot>)
      requires Shaped() && Table() == Faulted(t0, slots) && faults == faults0 + slots
      requires subnetSelector < csNets && Partition(t0, live, faults0, xCluster, yCluster, csNets)
      requires Counted(subnetUtilization[..], live)
      requires forall x :: x in slots ==> InGrid(x.at, xCluster, yCluster) && x.net < csNets
      ensures Books() <==> forall x :: x in slots ==> !Occupied(live, x)
    {
      hide Partition, Counted, Table, Occupied;
      FaultKeepsPartition(t0, live, faults0, slots, xCluster, yCluster, csNets);
    }

    lemma LiveCircuit(k: nat)
      requires Books() && k < |live| && live[k].route != []
      ensures WellFormed(live[k], xCluster, yCluster, csNets) && Carries(Table(), live[k])
      ensures Complete(Table(), xCluster, yCluster, csNets)
      ensures Partition(Table(), live, faults, xCluster, yCluster, csNets) && Counted(subnetUtilization[..], live)
      ensures csInport.Length3 == 6 && InPort(live[k], 0) == live[k].inport && ClearedUpTo(Table(), Table(), live[k], 0)
      ensures live[k].net < csNets == subnetUtilization.Length && subnetSelector < csNets
      ensures live[k].outport == LocalOut ==> OutSlot(live[k]) in Table()
    {
    }

    /** The output port stored for an input port that belongs to a circuit. */
    method OutputOf(r: Router, net: nat, p: Port) returns (out: Port)
      requires Shaped() && Slot(r, net, p) in Table() && Table()[Slot(r, net, p)].To?
      ensures Table()[Slot(r, net, p)] == To(out)
    {
      out := csInport[r.x, r.y, net, Code(p)].port;
    }

    /** Takes a circuit that has been cleared off the books. */
    method FinishRelease(mp: nat, hops: nat, ghost t0: Table, ghost live0: seq<Circuit>, ghost k: nat)
      requires Shaped() && live == live0 && k < |live| && live[k].net == mp < csNets && subnetSelector < csNets
      requires Partition(t0, live, faults, xCluster, yCluster, csNets) && Counted(subnetUtilization[..], live)
      requires Cleared(t0, Table(), live[k]) && hops == Hops(live[k])
      modifies subnetUtilization, `live
      ensures Books() && live == RemoveAt(live0, k)
    {
      ghost var u0 := subnetUtilization[..];
      LoadWithout(live, k, mp);
      assert u0[mp] == Load(live, mp);
      ReleaseKeepsBooks(t0, Table(), live, faults, k, xCluster, yCluster, csNets, u0, u0[mp := u0[mp] - hops]);
      subnetUtilization[mp] := subnetUtilization[mp] - hops;
      live := RemoveAt(live, k);
    }
  }

  lemma IsRemoved(was: seq<Router>, now: seq<Router>, i: nat)
    requires i < |was| && |now| == |was| - 1
    requires forall j :: 0 <= j < i ==> now[j] == was[j]
    requires forall j :: i <= j < |now| ==> now[j] == was[j + 1]
    ensures now == RemoveAt(was, i)
  {
  }

  lemma NothingCounted(utilization: seq<nat>)
    requires forall n :: 0 <= n < |utilization| ==> utilization[n] == 0
    ensures Counted(utilization, [])
  {
  }

  /** The subnets visited by i steps of the selector from `first`. */
  ghost predicate Tried(first: int, i: int, nets: int, n: int) {
    first < n <= first + i || first < n + nets <= first + i
  }

  /** Going round from the subnet after `first`, n comes before m. */
  ghost predicate Precedes(first: int, nets: int, n: int, m: int) {
    (if n > first then n else n + nets) < (if m > first then m else m + nets)
  }

  lemma TriedBefore(first: int, i: int, nets: int, m: int)
    requires 0 <= first < nets && 0 <= i < nets && m == if first + i + 1 < nets then first + i + 1 else first + i + 1 - nets
    ensures forall n :: 0 <= n < nets && Precedes(first, nets, n, m) ==> Tried(first, i, nets, n)
  {
  }

  lemma AllTried(first: int, nets: int)
    requires 0 <= first < nets
    ensures forall n :: 0 <= n < nets ==> Tried(first, nets, nets, n)
  {
  }

  /** Where following a circuit ended: at the target, or at a router whose output leaves the cluster. */
  datatype ReleaseEnd = AtTarget | LeavesAt(last: Router, nextInport: Port)
}
