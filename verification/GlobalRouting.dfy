/** The master's search for a path of clusters, and the retries that follow when one of them has no detailed route. */
module GlobalRouting {
  import opened Basics
  import opened Grid
  import opened Search
  import opened Circuits
  import opened Walks
  import opened Plans
  import opened NocManager

  /** The enabled (cluster, subnet) pairs. */
  ghost function Enabled(ctl: Controller): set<(Router, nat)>
    requires (ctl.available.Length0, ctl.available.Length1) == (ctl.xClusterNum, ctl.yClusterNum)
    requires ctl.available.Length2 == ctl.csNets
    reads ctl.available
  {
    set c, n | c in Cells(ctl.xClusterNum, ctl.yClusterNum) && n in Below(ctl.csNets) && ctl.available[c.x, c.y, n] :: (c, n)
  }

  ghost predicate InGlobalMode(ctl: Controller, s: Router, t: Router)
    reads ctl`isGlobalSearch, ctl`maxGridX, ctl`maxGridY, ctl`lastNlist, ctl`lastPlist
  {
    && ctl.Shaped() && ctl.isGlobalSearch && ctl.csNets > 0
    && InGrid(s, ctl.xClusterNum, ctl.yClusterNum) && InGrid(t, ctl.xClusterNum, ctl.yClusterNum) && s != t
  }

  /** A list of hops from the target's cluster back to the source's, as the master keeps it. */
  ghost predicate IsClusterPath(links: Links, path: seq<Hop>, s: Router, t: Router) {
    && path != [] && path[0].at == t && path[|path| - 1].at == s
    && (forall i, j :: 0 <= i < j < |path| ==> path[i].at != path[j].at)
    && (forall i :: 0 <= i < |path| - 1 ==> (path[i + 1].at, path[i].at) in links)
  }

  lemma HopsAreReversed(c: Circuit, i: nat)
    requires i < |c.route|
    ensures AllEntries(c)[i].at == c.route[|c.route| - 1 - i]
  {
    EntryAt(c, |c.route| - 1, i);
  }

  lemma RouteIsClusterPath(links: Links, c: Circuit, s: Router, t: Router)
    requires PathBetween(links, c.route, s, t) && Distinct(c.route)
    ensures IsClusterPath(links, AllEntries(c), s, t) && |AllEntries(c)| == |c.route|
  {
    hide AllEntries;
    var path, n := AllEntries(c), |c.route|;
    forall i | 0 <= i < n ensures path[i].at == c.route[n - 1 - i] {
      HopsAreReversed(c, i);
    }
    forall i | 0 <= i < n - 1 ensures (path[i + 1].at, path[i].at) in links {
      assert (c.route[n - 2 - i], c.route[n - 2 - i + 1]) in links;
    }
  }

  /** The retrace of a finished global search lists the clusters of its route. */
  lemma FoundIsClusterPath(ctl: Controller, s: Router, t: Router, mp: nat)
    requires ctl.Shaped() && ctl.isGlobalSearch && mp < ctl.csNets && DiscoveryList(ctl.UsableLinks(mp), ctl.Popped())
    requires ctl.ListedInGrid() && ctl.Popped()[0] == s && ctl.Popped()[|ctl.Popped()| - 1] == t && s != t
    ensures ctl.lastPlist > 0 && ctl.WayBack(mp, LocalIn, LocalOut).popped != []
    ensures ctl.WayBack(mp, LocalIn, LocalOut).isGlobal
    ensures ctl.WayBack(mp, LocalIn, LocalOut).net == mp
    ensures IsClusterPath(ctl.GlobalLinks(mp), Marks(ctl.WayBack(mp, LocalIn, LocalOut), ctl.Table()), s, t)
    ensures |Marks(ctl.WayBack(mp, LocalIn, LocalOut), ctl.Table())| ==
      |Route(ctl.UsableLinks(mp), ctl.Popped(), ctl.lastPlist - 1)|
  {
    hide DiscoveryList, IsClusterPath, AllEntries, Distinct, Marks, Controller.UsableLinks, Controller.GlobalLinks,
      IsPlan, Walks.Walk;
    ctl.MakePlan(mp, LocalIn, LocalOut);
    RouteIsSimplePath(ctl.UsableLinks(mp), ctl.Popped(), ctl.lastPlist - 1);
    SeenGlobally(ctl, mp);
    RouteIsClusterPath(ctl.GlobalLinks(mp), ctl.FoundCircuit(mp, LocalIn, LocalOut), s, t);
    RetraceFollowsRoute(ctl.RawPlan(mp, LocalIn, LocalOut), true, {}, ctl.Table());
  }

  lemma SeenGlobally(ctl: Controller, mp: nat)
    requires ctl.Layout() && ctl.isGlobalSearch && mp < ctl.csNets
    ensures ctl.UsableLinks(mp) == ctl.GlobalLinks(mp)
  {
  }

  // ----- one attempt

  /** How loaded the clusters of the path that was found are, on one subnet. */
  method ComputeSubnetUtilizationOfPath(ctl: Controller, utilization: (Router, nat) -> nat,
                                        mp: nat) returns (total: nat)
    ensures total == TotalUtilization(ctl.clusterPath, utilization, mp)
  {
    total := 0;
    for i := 0 to |ctl.clusterPath|
      invariant total == TotalUtilization(ctl.clusterPath[..i], utilization, mp)
    {
      assert ctl.clusterPath[..i + 1][..i] == ctl.clusterPath[..i];
      total := total + utilization(ctl.clusterPath[i].at, mp);
    }
    assert ctl.clusterPath[..|ctl.clusterPath|] == ctl.clusterPath;
  }

  ghost function TotalUtilization(path: seq<Hop>, utilization: (Router, nat) -> nat, mp: nat): nat {
    if path == [] then 0
    else TotalUtilization(path[..|path| - 1], utilization, mp) + utilization(path[|path| - 1].at, mp)
  }

  ghost predicate IsOn(path: seq<Hop>, c: Router) {
    exists i :: 0 <= i < |path| && path[i].at == c
  }

  /** Each cluster of the path counts once, with what it says of the subnet, and nothing else counts. */
  lemma {:induction false} EachCountsOnce(path: seq<Hop>, utilization: (Router, nat) -> nat,
                                          other: (Router, nat) -> nat, mp: nat, c: Router)
    requires forall i, j :: 0 <= i < j < |path| ==> path[i].at != path[j].at
    requires forall d :: d != c ==> other(d, mp) == utilization(d, mp)
    ensures TotalUtilization(path, other, mp) ==
      TotalUtilization(path, utilization, mp) + if IsOn(path, c) then other(c, mp) - utilization(c, mp) else 0
    ensures (forall d :: utilization(d, mp) == 0) ==> TotalUtilization(path, utilization, mp) == 0
  {
    if path != [] {
      var init, last := path[..|path| - 1], path[|path| - 1];
      EachCountsOnce(init, utilization, other, mp, c);
      assert path == init + [last];
      assert IsOn(path, c) <==> IsOn(init, c) || last.at == c;
    }
  }

  ghost predicate IsRoutable(ctl: Controller, s: Router, t: Router, mp: nat)
    requires ctl.Layout() && mp < ctl.csNets
    reads ctl`isGlobalSearch, ctl`maxGridX, ctl`maxGridY, ctl.borderInput, ctl.borderOutput, ctl.available
  {
    Reachable(ctl.GlobalLinks(mp), s, t)
  }

  /** Searches one subnet and lists the clusters of the path found. */
  method SearchSubnet(ctl: Controller, s: Router, t: Router, mp: nat, minPath: bool) returns (found: bool)
    requires mp < ctl.csNets && ctl.Shaped() && ctl.isGlobalSearch && s != t
    requires InGrid(s, ctl.xClusterNum, ctl.yClusterNum) && InGrid(t, ctl.xClusterNum, ctl.yClusterNum)
    modifies ctl`lastNlist, ctl`lastPlist, ctl.detour, ctl.nlist, ctl.plist, ctl.csInport, ctl.subnetUtilization,
             ctl`clusterPath
    ensures InGlobalMode(ctl, s, t) && ctl.Table() == old(ctl.Table())
    ensures found ==> IsRoutable(ctl, s, t, mp) && IsClusterPath(ctl.GlobalLinks(mp), ctl.clusterPath, s, t)
    ensures !found && !minPath ==> !IsRoutable(ctl, s, t, mp)
    ensures found && minPath ==> |ctl.clusterPath| - 1 == Manhattan(s, t)
    ensures NoDeadEnd(ctl.GlobalLinks(mp), s, t) ==> found && |ctl.clusterPath| - 1 == Manhattan(s, t)
  {
    hide *;
    GlobalModeFacts(ctl, s, t, mp);
    found := ctl.Hadlock(s, t, mp, minPath);
    GlobalModeFacts(ctl, s, t, mp);
    if found {
      FoundIsClusterPath(ctl, s, t, mp);
      ghost var way, t0, path0, u0 := ctl.WayBack(mp, LocalIn, LocalOut), ctl.Table(), ctl.clusterPath,
        ctl.subnetUtilization[..];
      ctl.Retrace(mp, LocalIn, LocalOut);
      RetraceInGlobalMode(ctl, way, t0, path0, u0);
      GlobalModeFacts(ctl, s, t, mp);
    }
  }

  lemma GlobalModeFacts(ctl: Controller, s: Router, t: Router, mp: nat)
    requires mp < ctl.csNets && ctl.Shaped() && ctl.isGlobalSearch && s != t
    requires InGrid(s, ctl.xClusterNum, ctl.yClusterNum) && InGrid(t, ctl.xClusterNum, ctl.yClusterNum)
    ensures InGlobalMode(ctl, s, t) && ctl.Layout() && ctl.csInport.Length3 == 6 && mp < ctl.subnetUtilization.Length
    ensures ctl.UsableLinks(mp) == ctl.GlobalLinks(mp) && ctl.lastPlist <= ctl.plist.Length
    ensures InGrid(s, ctl.maxGridX, ctl.maxGridY) && InGrid(t, ctl.maxGridX, ctl.maxGridY)
    ensures IsRoutable(ctl, s, t, mp) <==> Reachable(ctl.UsableLinks(mp), s, t)
  {
    hide Reachable;
  }

  lemma RetraceInGlobalMode(ctl: Controller, way: Way, t0: Table, path0: seq<Hop>, u0: seq<nat>)
    requires ctl.csInport.Length3 == 6 && way.net < |u0| && way.isGlobal && way.popped != []
    requires ctl.RetraceDone(way, t0, path0, u0)
    ensures ctl.Table() == t0 && ctl.clusterPath == Marks(way, t0)
  {
  }

  /**
   * The paths found on some of the first n subnets, and a subnet whose path is least utilised and, among those,
   * shortest.
   */
  ghost predicate IsBest(ctl: Controller, s: Router, t: Router, utilization: (Router, nat) -> nat, found: map<nat,
                         seq<Hop>>, subnet: int, n: nat)
    requires ctl.Layout() && n <= ctl.csNets
    reads ctl`isGlobalSearch, ctl`maxGridX, ctl`maxGridY, ctl.borderInput, ctl.borderOutput, ctl.available
  {
    && (forall mp :: mp in found ==>
      mp < n && IsRoutable(ctl, s, t, mp) && IsClusterPath(ctl.GlobalLinks(mp), found[mp], s, t))
    && IsLeast(found, utilization, subnet)
  }

  ghost predicate IsLeast(found: map<nat, seq<Hop>>, utilization: (Router, nat) -> nat, subnet: int) {
    if subnet < 0 then found == map[] else subnet in found && forall mp :: mp in found ==> NoWorse(found, utilization, subnet, mp)
  }

  ghost predicate NoWorse(found: map<nat, seq<Hop>>, utilization: (Router, nat) -> nat, a: nat, b: nat)
    requires a in found && b in found
  {
    var ua, ub := TotalUtilization(found[a], utilization, a), TotalUtilization(found[b], utilization, b);
    ua < ub || (ua == ub && |found[a]| <= |found[b]|)
  }

  ghost predicate AllFound(ctl: Controller, s: Router, t: Router, found: map<nat, seq<Hop>>, n: nat)
    requires ctl.Layout() && n <= ctl.csNets
    reads ctl`isGlobalSearch, ctl`maxGridX, ctl`maxGridY, ctl.borderInput, ctl.borderOutput, ctl.available
  {
    forall mp: nat :: mp < n && IsRoutable(ctl, s, t, mp) ==> mp in found
  }

  /** On some of the first n subnets the clusters between the two offer no dead end. */
  ghost predicate OffersDirect(ctl: Controller, s: Router, t: Router, n: nat)
    requires ctl.Layout() && n <= ctl.csNets
    reads ctl`isGlobalSearch, ctl`maxGridX, ctl`maxGridY, ctl.borderInput, ctl.borderOutput, ctl.available
  {
    exists mp: nat :: mp < n && NoDeadEnd(ctl.GlobalLinks(mp), s, t)
  }

  /** All paths found are as short as can be. */
  ghost predicate AllDirect(s: Router, t: Router, found: map<nat, seq<Hop>>) {
    forall mp :: mp in found ==> |found[mp]| - 1 == Manhattan(s, t)
  }

  lemma ModeFacts(ctl: Controller, s: Router, t: Router)
    requires InGlobalMode(ctl, s, t)
    ensures ctl.Shaped() && ctl.isGlobalSearch && ctl.Layout() && ctl.csInport.Length3 == 6 && s != t
    ensures InGrid(s, ctl.xClusterNum, ctl.yClusterNum) && InGrid(t, ctl.xClusterNum, ctl.yClusterNum)
  {
  }

  lemma NothingFound(ctl: Controller, s: Router, t: Router, utilization: (Router, nat) -> nat)
    requires ctl.Layout()
    ensures IsBest(ctl, s, t, utilization, map[], -1, 0) && AllFound(ctl, s, t, map[], 0)
  {
  }

  lemma NothingOffered(ctl: Controller, s: Router, t: Router)
    requires ctl.Layout()
    ensures !OffersDirect(ctl, s, t, 0) && AllDirect(s, t, map[])
  {
  }

  lemma OffersOneMore(ctl: Controller, s: Router, t: Router, mp: nat)
    requires ctl.Layout() && mp < ctl.csNets
    ensures OffersDirect(ctl, s, t, mp + 1) <==> OffersDirect(ctl, s, t, mp) || NoDeadEnd(ctl.GlobalLinks(mp), s, t)
  {
    hide NoDeadEnd;
  }

  lemma OneMoreDirect(s: Router, t: Router, found: map<nat, seq<Hop>>, mp: nat, path: seq<Hop>)
    requires AllDirect(s, t, found) && |path| - 1 == Manhattan(s, t)
    ensures AllDirect(s, t, found[mp := path])
  {
    hide Manhattan;
  }

  lemma NoneMoreFound(ctl: Controller, s: Router, t: Router, utilization: (Router, nat) -> nat, found: map<nat,
                      seq<Hop>>, subnet: int, mp: nat)
    requires ctl.Layout() && mp < ctl.csNets && IsBest(ctl, s, t, utilization, found, subnet, mp)
    ensures IsBest(ctl, s, t, utilization, found, subnet, mp + 1)
    ensures AllFound(ctl, s, t, found, mp) && !IsRoutable(ctl, s, t, mp) ==> AllFound(ctl, s, t, found, mp + 1)
  {
    hide IsRoutable, IsClusterPath, TotalUtilization;
  }

  lemma OneMoreFound(ctl: Controller, s: Router, t: Router, utilization: (Router, nat) -> nat, found: map<nat,
                     seq<Hop>>, subnet: int,
                     mp: nat, path: seq<Hop>, lowerUtil: int, currPathSize: int, currUtil: int, better: bool)
    requires ctl.Layout() && mp < ctl.csNets && subnet >= -1 && IsBest(ctl, s, t, utilization, found, subnet, mp)
    requires IsRoutable(ctl, s, t, mp) && IsClusterPath(ctl.GlobalLinks(mp), path, s, t)
    requires currUtil == TotalUtilization(path, utilization, mp)
    requires subnet >= 0 ==> subnet in found
    requires if subnet == -1 then lowerUtil == -1
             else lowerUtil == TotalUtilization(found[subnet], utilization, subnet) && currPathSize == |found[subnet]|
    requires better == (lowerUtil == -1 || currUtil < lowerUtil || (currUtil == lowerUtil && |path| < currPathSize))
    ensures IsBest(ctl, s, t, utilization, found[mp := path], if better then mp else subnet, mp + 1)
    ensures AllFound(ctl, s, t, found, mp) ==> AllFound(ctl, s, t, found[mp := path], mp + 1)
    ensures mp !in found
  {
    hide IsRoutable, IsClusterPath, TotalUtilization, IsLeast;
    assert mp !in found;
    LeastOfMore(found, utilization, subnet, mp, path, lowerUtil, currPathSize, currUtil, better);
  }

  lemma LeastOfMore(found: map<nat, seq<Hop>>, utilization: (Router, nat) -> nat, subnet: int, mp: nat, path: seq<Hop>,
                    lowerUtil: int, currPathSize: int, currUtil: int, better: bool)
    requires subnet >= -1 && IsLeast(found, utilization, subnet) && mp !in found
    requires currUtil == TotalUtilization(path, utilization, mp) && (subnet >= 0 ==> subnet in found)
    requires if subnet == -1 then lowerUtil == -1
             else lowerUtil == TotalUtilization(found[subnet], utilization, subnet) && currPathSize == |found[subnet]|
    requires better == (lowerUtil == -1 || currUtil < lowerUtil || (currUtil == lowerUtil && |path| < currPathSize))
    ensures IsLeast(found[mp := path], utilization, if better then mp else subnet)
  {
    hide TotalUtilization;
    var found', best: nat := found[mp := path], if better then mp else subnet;
    forall n | n in found' ensures NoWorse(found', utilization, best, n) {
      if n != mp && subnet >= 0 { assert NoWorse(found, utilization, subnet, n); }
    }
  }

  /**
   * Searches all subnets, first for a path without detours and then for any, and settles for the least utilised one.
   * From the second attempt on only the general search is made. `found` is what the last round found; where it was the
   * general one, that is a path on every subnet that has one.
   */
  method ChooseSubnet(ctl: Controller, s: Router, t: Router, attempts: nat, utilization: (Router, nat) -> nat)
    returns (subnet: int, ghost found: map<nat, seq<Hop>>, ghost general: bool)
    requires InGlobalMode(ctl, s, t)
    modifies ctl`lastNlist, ctl`lastPlist, ctl.detour, ctl.nlist, ctl.plist, ctl.csInport, ctl.subnetUtilization,
             ctl`clusterPath
    ensures InGlobalMode(ctl, s, t) && ctl.Table() == old(ctl.Table())
    ensures -1 <= subnet < ctl.csNets
    ensures subnet >= 0 ==> IsRoutable(ctl, s, t, subnet)
    ensures IsBest(ctl, s, t, utilization, found, subnet, ctl.csNets)
    ensures general ==> forall mp: nat :: mp < ctl.csNets && IsRoutable(ctl, s, t, mp) ==> mp in found
    ensures attempts > 1 || subnet == -1 ==> general
    ensures attempts <= 1 && OffersDirect(ctl, s, t, ctl.csNets) ==> !general
    ensures !general ==> AllDirect(s, t, found)
    ensures subnet == -1 ==> forall mp: nat :: mp < ctl.csNets ==> !IsRoutable(ctl, s, t, mp)
  {
    subnet, found, general := -1, map[], false;
    var minPath := 1;
    while minPath >= 0 && subnet == -1
      invariant InGlobalMode(ctl, s, t) && ctl.Table() == old(ctl.Table())
      invariant -1 <= minPath <= 1 && -1 <= subnet < ctl.csNets
      invariant IsBest(ctl, s, t, utilization, found, subnet, ctl.csNets)
      invariant general ==> AllFound(ctl, s, t, found, ctl.csNets)
      invariant attempts > 1 ==> minPath == 1 && subnet == -1
      invariant (minPath < 0 ==> general) && (minPath == 1 ==> !general)
      invariant minPath < 1 && (general || subnet == -1) ==> !OffersDirect(ctl, s, t, ctl.csNets)
      invariant !general ==> AllDirect(s, t, found)
    {
      if attempts > 1 { minPath := 0; }
      subnet, found, general := SearchRound(ctl, s, t, minPath == 1, utilization);
      if attempts > 1 { break; }
      minPath := minPath - 1;
    }
  }

  /** One round over all subnets. */
  method SearchRound(ctl: Controller, s: Router, t: Router, minPath: bool, utilization: (Router, nat) -> nat)
    returns (subnet: int, ghost found: map<nat, seq<Hop>>, ghost general: bool)
    requires InGlobalMode(ctl, s, t)
    modifies ctl`lastNlist, ctl`lastPlist, ctl.detour, ctl.nlist, ctl.plist, ctl.csInport, ctl.subnetUtilization,
             ctl`clusterPath
    ensures InGlobalMode(ctl, s, t) && ctl.Table() == old(ctl.Table())
    ensures -1 <= subnet < ctl.csNets && IsBest(ctl, s, t, utilization, found, subnet, ctl.csNets)
    ensures general == !minPath && (general ==> AllFound(ctl, s, t, found, ctl.csNets))
    ensures OffersDirect(ctl, s, t, ctl.csNets) ==> subnet != -1
    ensures minPath ==> AllDirect(s, t, found)
  {
    hide *;
    ModeFacts(ctl, s, t);
    NothingFound(ctl, s, t, utilization);
    NothingOffered(ctl, s, t);
    var lowerUtil: int, currPathSize: int := -1, 65535;
    subnet, found, general := -1, map[], !minPath;
    for mp := 0 to ctl.csNets
      invariant InGlobalMode(ctl, s, t) && ctl.Table() == old(ctl.Table())
      invariant -1 <= subnet < ctl.csNets && IsBest(ctl, s, t, utilization, found, subnet, mp)
      invariant subnet >= 0 ==> subnet in found
      invariant if subnet == -1 then lowerUtil == -1
                else lowerUtil == TotalUtilization(found[subnet], utilization, subnet) && currPathSize == |found[subnet]|
      invariant ctl.Layout() && (general ==> AllFound(ctl, s, t, found, mp))
      invariant OffersDirect(ctl, s, t, mp) ==> subnet != -1
      invariant minPath ==> AllDirect(s, t, found)
    {
      ModeFacts(ctl, s, t);
      OffersOneMore(ctl, s, t, mp);
      var success := SearchSubnet(ctl, s, t, mp, minPath);
      if success {
        var currUtil := ComputeSubnetUtilizationOfPath(ctl, utilization, mp);
        var better := lowerUtil == -1 || currUtil < lowerUtil || (currUtil == lowerUtil && |ctl.clusterPath| < currPathSize);
        OneMoreFound(ctl, s, t, utilization, found, subnet, mp, ctl.clusterPath, lowerUtil, currPathSize, currUtil,
                     better);
        if minPath { OneMoreDirect(s, t, found, mp, ctl.clusterPath); }
        found := found[mp := ctl.clusterPath];
        if better {
          subnet, lowerUtil, currPathSize := mp, currUtil, |ctl.clusterPath|;
        }
      } else {
        NoneMoreFound(ctl, s, t, utilization, found, subnet, mp);
      }
    }
  }

  ghost predicate NoneRoutable(ctl: Controller, s: Router, t: Router, n: nat)
    requires ctl.Layout() && n <= ctl.csNets
    reads ctl`isGlobalSearch, ctl`maxGridX, ctl`maxGridY, ctl.borderInput, ctl.borderOutput, ctl.available
  {
    forall mp: nat :: mp < n ==> !IsRoutable(ctl, s, t, mp)
  }

  // ----- retries

  /**
   * What a no from one cluster costs: that cluster, and the target's where it comes from the source's or the target's.
   */
  ghost function Lost(path: seq<Hop>, self: Router, mp: nat, from: Router): set<(Router, nat)>
    requires path != []
  {
    {(from, mp)} + if from == self || from == path[0].at then {(path[0].at, mp)} else {}
  }

  method Disable(ctl: Controller, c: Router, mp: nat)
    requires ctl.Layout() && mp < ctl.csNets && InGrid(c, ctl.xClusterNum, ctl.yClusterNum)
    modifies ctl.available
    ensures Enabled(ctl) == old(Enabled(ctl)) - {(c, mp)}
  {
    ctl.available[c.x, c.y, mp] := false;
  }

  /** Takes one answer into account. */
  method HandleDetailedRoutingResponse(ctl: Controller, response: bool, from: Router, self: Router, mp: nat,
                                       allOk: bool)
    returns (ok: bool)
    requires ctl.Layout() && mp < ctl.csNets && ctl.clusterPath != []
    requires InGrid(from, ctl.xClusterNum, ctl.yClusterNum)
    requires InGrid(ctl.clusterPath[0].at, ctl.xClusterNum, ctl.yClusterNum)
    modifies ctl.available
    ensures ok == (allOk && response) && (response ==> unchanged(ctl.available))
    ensures Enabled(ctl) ==
      if response then old(Enabled(ctl)) else old(Enabled(ctl)) - Lost(ctl.clusterPath, self, mp, from)
    ensures forall c, k :: (c, k) in old(Enabled(ctl)) ==>
      ((c, k) in Enabled(ctl) <==>
       response || k != mp || (c != from && !(c == ctl.clusterPath[0].at && from == self)))
  {
    hide Enabled;
    ok := allOk;
    if !response {
      Disable(ctl, from, mp);
      var target := ctl.clusterPath[0].at;
      if from == self || from == target {
        Disable(ctl, target, mp);
      }
      ok := false;
    }
  }

  /** The pairs lost to the clusters among the first n of the path that said no. */
  ghost function AllLost(path: seq<Hop>, self: Router, mp: nat, answers: Router -> bool, n: nat): set<(Router, nat)>
    requires path != [] && n <= |path|
  {
    if n == 0 then {}
    else AllLost(path, self, mp, answers, n - 1)
         + if answers(path[n - 1].at) then {} else Lost(path, self, mp, path[n - 1].at)
  }

  ghost predicate AllYes(path: seq<Hop>, answers: Router -> bool) {
    forall i :: 0 <= i < |path| ==> answers(path[i].at)
  }

  method CollectAnswers(ctl: Controller, self: Router, mp: nat, answers: Router -> bool) returns (allOk: bool)
    requires ctl.Layout() && mp < ctl.csNets && ctl.clusterPath != []
    requires forall i :: 0 <= i < |ctl.clusterPath| ==> InGrid(ctl.clusterPath[i].at, ctl.xClusterNum, ctl.yClusterNum)
    modifies ctl.available
    ensures (allOk <==> AllYes(ctl.clusterPath, answers)) && (allOk ==> unchanged(ctl.available))
    ensures Enabled(ctl) == old(Enabled(ctl)) - AllLost(ctl.clusterPath, self, mp, answers, |ctl.clusterPath|)
  {
    hide *;
    AvailableFits(ctl);
    allOk := true;
    ghost var path := ctl.clusterPath;
    NothingLost(path, self, mp, answers);
    for i := 0 to |ctl.clusterPath|
      invariant (allOk <==> AllYes(path[..i], answers)) && (allOk ==> unchanged(ctl.available))
      invariant Enabled(ctl) == old(Enabled(ctl)) - AllLost(path, self, mp, answers, i)
    {
      var response := answers(ctl.clusterPath[i].at);
      allOk := HandleDetailedRoutingResponse(ctl, response, ctl.clusterPath[i].at, self, mp, allOk);
      OneMoreAnswer(path, self, mp, answers, i);
    }
    WholePath(path);
  }

  lemma WholePath(path: seq<Hop>)
    ensures path[..|path|] == path
  {
  }

  lemma AvailableFits(ctl: Controller)
    requires ctl.Layout()
    ensures (ctl.available.Length0, ctl.available.Length1) == (ctl.xClusterNum, ctl.yClusterNum)
    ensures ctl.available.Length2 == ctl.csNets
  {
  }

  lemma NothingLost(path: seq<Hop>, self: Router, mp: nat, answers: Router -> bool)
    requires path != []
    ensures AllLost(path, self, mp, answers, 0) == {} && AllYes(path[..0], answers)
  {
  }

  lemma OneMoreAnswer(path: seq<Hop>, self: Router, mp: nat, answers: Router -> bool, i: nat)
    requires i < |path|
    ensures AllYes(path[..i + 1], answers) <==> AllYes(path[..i], answers) && answers(path[i].at)
    ensures AllLost(path, self, mp, answers, i + 1) ==
      AllLost(path, self, mp, answers, i) + if answers(path[i].at) then {} else Lost(path, self, mp, path[i].at)
  {
    assert path[..i + 1] == path[..i] + [path[i]];
  }

  /** A pair is lost exactly where its own cluster said no, or it is the target's and the source said no. */
  lemma {:induction false} LostExactly(path: seq<Hop>, self: Router, mp: nat, answers: Router -> bool, n: nat,
                                       c: Router, k: nat)
    requires path != [] && n <= |path|
    ensures (c, k) in AllLost(path, self, mp, answers, n) <==>
      k == mp && exists i :: 0 <= i < n && !answers(path[i].at)
                             && (c == path[i].at || (c == path[0].at && path[i].at == self))
  {
    if n > 0 { LostExactly(path, self, mp, answers, n - 1, c, k); }
  }

  lemma {:induction false} LostCovers(path: seq<Hop>, self: Router, mp: nat, answers: Router -> bool, n: nat, i: nat)
    requires path != [] && i < n <= |path| && !answers(path[i].at)
    ensures Lost(path, self, mp, path[i].at) <= AllLost(path, self, mp, answers, n)
  {
    if i < n - 1 { LostCovers(path, self, mp, answers, n - 1, i); }
  }

  /** Every cluster of the path but the source's was enabled when the path was found. */
  lemma EnteredIsEnabled(ctl: Controller, path: seq<Hop>, s: Router, t: Router, mp: nat, i: nat)
    requires ctl.Layout() && mp < ctl.csNets && IsClusterPath(ctl.GlobalLinks(mp), path, s, t) && i < |path| - 1
    ensures (path[i].at, mp) in Enabled(ctl)
  {
    assert (path[i + 1].at, path[i].at) in ctl.GlobalLinks(mp);
  }

  /**
   * A failed attempt takes at least one enabled pair away, even where the source's own cluster is the one that failed.
   */
  lemma FailureLosesOne(ctl: Controller, path: seq<Hop>, s: Router, t: Router, mp: nat, answers: Router -> bool)
    requires ctl.Layout() && mp < ctl.csNets && IsClusterPath(ctl.GlobalLinks(mp), path, s, t) && s != t
    requires !AllYes(path, answers)
    ensures Enabled(ctl) - AllLost(path, s, mp, answers, |path|) < Enabled(ctl)
  {
    var i :| 0 <= i < |path| && !answers(path[i].at);
    LostCovers(path, s, mp, answers, |path|, i);
    if i == |path| - 1 { EnteredIsEnabled(ctl, path, s, t, mp, 0); } else { EnteredIsEnabled(ctl, path, s, t, mp, i); }
  }

  lemma PathInGrid(ctl: Controller, path: seq<Hop>, s: Router, t: Router, mp: nat)
    requires ctl.Layout() && mp < ctl.csNets && IsClusterPath(ctl.GlobalLinks(mp), path, s, t)
    requires InGrid(s, ctl.xClusterNum, ctl.yClusterNum)
    ensures forall i :: 0 <= i < |path| ==> InGrid(path[i].at, ctl.xClusterNum, ctl.yClusterNum)
  {
    forall i | 0 <= i < |path| ensures InGrid(path[i].at, ctl.xClusterNum, ctl.yClusterNum) {
      if i < |path| - 1 { EnteredIsEnabled(ctl, path, s, t, mp, i); }
    }
  }

  lemma FewerEnabled(smaller: set<(Router, nat)>, larger: set<(Router, nat)>)
    requires smaller < larger
    ensures |smaller| < |larger|
  {
    assert |larger - smaller| > 0;
    assert larger == smaller + (larger - smaller);
  }

  /** The crossings of a subnet with a free position, whether or not the clusters they enter are enabled. */
  ghost function OpenCrossings(ctl: Controller, mp: nat): Links
    requires ctl.Layout() && mp < ctl.csNets
    reads ctl`isGlobalSearch, ctl`maxGridX, ctl`maxGridY, ctl.borderInput, ctl.borderOutput
  {
    set u, v | u in Cells(ctl.xClusterNum, ctl.yClusterNum) && v in Cells(ctl.xClusterNum, ctl.yClusterNum)
               && Adjacent(u, v) && ctl.BorderOpen(u, v, Facing(v, u), mp) :: (u, v)
  }

  /** One attempt: search the clusters, then ask all of them for a detailed route. */
  method Attempt(ctl: Controller, s: Router, t: Router, attempts: nat, utilization: (Router, nat) -> nat,
                 replies: Router -> bool)
    returns (subnet: int, allOk: bool)
    requires ctl.Shaped() && ctl.csNets > 0 && s != t
    requires InGrid(s, ctl.xClusterNum, ctl.yClusterNum) && InGrid(t, ctl.xClusterNum, ctl.yClusterNum)
    modifies ctl`lastNlist, ctl`lastPlist, ctl.detour, ctl.nlist, ctl.plist, ctl.csInport, ctl.subnetUtilization,
             ctl`clusterPath,
             ctl`isGlobalSearch, ctl`maxGridX, ctl`maxGridY, ctl.available
    ensures ctl.Shaped() && ctl.Table() == old(ctl.Table())
    ensures -1 <= subnet < ctl.csNets && (subnet == -1 ==> !allOk)
    ensures allOk ==> IsClusterPath(ctl.GlobalLinks(subnet), ctl.clusterPath, s, t) && AllYes(ctl.clusterPath, replies)
    ensures subnet == -1 ==> NoneRoutable(ctl, s, t, ctl.csNets)
    ensures if subnet == -1 || allOk then Enabled(ctl) == old(Enabled(ctl)) else Enabled(ctl) < old(Enabled(ctl))
    ensures forall c, k :: (c, k) in old(Enabled(ctl)) && (c, k) !in Enabled(ctl) ==>
      k == subnet && (!replies(c) || (c == t && !replies(s)))
    ensures forall mp: nat :: mp < ctl.csNets ==> OpenCrossings(ctl, mp) == old(OpenCrossings(ctl, mp))
  {
    hide IsBest, AllFound, IsLeast, TotalUtilization, Reachable, Enabled, IsClusterPath, AllYes;
    allOk := false;
    ctl.EnableGlobalRouting();
    ghost var candidates, general;
    subnet, candidates, general := ChooseSubnet(ctl, s, t, attempts, utilization);
    if subnet != -1 {
      var found := SearchSubnet(ctl, s, t, subnet, false);
      allOk := AskClusters(ctl, s, t, subnet, replies);
    }
  }

  lemma LostToAnswers(links: Links, path: seq<Hop>, s: Router, t: Router, mp: nat, answers: Router -> bool)
    requires IsClusterPath(links, path, s, t)
    ensures forall c, k :: (c, k) in AllLost(path, s, mp, answers, |path|) <==>
      k == mp && IsOn(path, c) && (!answers(c) || (c == t && !answers(s)))
  {
    hide AllLost;
    forall c, k
      ensures (c, k) in AllLost(path, s, mp, answers, |path|) <==>
        k == mp && IsOn(path, c) && (!answers(c) || (c == t && !answers(s)))
    {
      LostExactly(path, s, mp, answers, |path|, c, k);
    }
  }

  /** Asks all clusters of the path found, and takes their answers into account. */
  method AskClusters(ctl: Controller, s: Router, t: Router, subnet: nat, replies: Router -> bool) returns (allOk: bool)
    requires InGlobalMode(ctl, s, t) && subnet < ctl.csNets
    requires IsClusterPath(ctl.GlobalLinks(subnet), ctl.clusterPath, s, t)
    modifies ctl.available
    ensures allOk ==> AllYes(ctl.clusterPath, replies) && unchanged(ctl.available)
    ensures if allOk then Enabled(ctl) == old(Enabled(ctl)) else Enabled(ctl) < old(Enabled(ctl))
    ensures forall c, k :: (c, k) in old(Enabled(ctl)) ==>
      ((c, k) !in Enabled(ctl) <==> k == subnet && IsOn(ctl.clusterPath, c) && (!replies(c) || (c == t && !replies(s))))
  {
    PathInGrid(ctl, ctl.clusterPath, s, t, subnet);
    ghost var path, enabled := ctl.clusterPath, Enabled(ctl);
    LostToAnswers(ctl.GlobalLinks(subnet), path, s, t, subnet, replies);
    if !AllYes(path, replies) {
      FailureLosesOne(ctl, path, s, t, subnet, replies);
    }
    hide *;
    allOk := CollectAnswers(ctl, s, subnet, replies);
  }

  lemma EnabledCrossings(ctl: Controller, mp: nat)
    requires ctl.Layout() && mp < ctl.csNets
    ensures forall u, v :: (u, v) in ctl.GlobalLinks(mp) <==> (u, v) in OpenCrossings(ctl, mp) && (v, mp) in Enabled(ctl)
  {
  }

  /**
   * A path over open crossings of a subnet, from cluster to cluster, that enters enabled clusters only, and whose
   * clusters say yes however often they are asked.
   */
  ghost predicate IsSteadyPath(route: seq<Router>, crossings: Links, enabled: set<(Router, nat)>, mp: nat, s: Router,
                               t: Router, answers: (nat, Router) -> bool) {
    && PathBetween(crossings, route, s, t)
    && (forall i :: 0 < i < |route| ==> (route[i], mp) in enabled)
    && (forall k, i :: 0 <= i < |route| ==> answers(k, route[i]))
  }

  /** The clusters of such a path outlive a failed attempt. */
  lemma SteadyPathStays(route: seq<Router>, crossings: Links, enabled: set<(Router, nat)>, enabled': set<(Router, nat)>,
                        mp: nat, s: Router, t: Router, answers: (nat, Router) -> bool, attempt: nat, subnet: int)
    requires IsSteadyPath(route, crossings, enabled, mp, s, t, answers)
    requires forall c, k :: (c, k) in enabled && (c, k) !in enabled' ==>
      k == subnet && (!answers(attempt, c) || (c == t && !answers(attempt, s)))
    ensures IsSteadyPath(route, crossings, enabled', mp, s, t, answers)
  {
  }

  lemma SteadyPathIsUsable(ctl: Controller, route: seq<Router>, mp: nat, s: Router, t: Router,
                           answers: (nat, Router) -> bool)
    requires ctl.Layout() && mp < ctl.csNets
    requires IsSteadyPath(route, OpenCrossings(ctl, mp), Enabled(ctl), mp, s, t, answers)
    ensures IsRoutable(ctl, s, t, mp)
  {
    hide OpenCrossings, Enabled, Controller.GlobalLinks;
    EnabledCrossings(ctl, mp);
    forall i | 0 <= i < |route| - 1 ensures (route[i], route[i + 1]) in ctl.GlobalLinks(mp) {
    }
    assert PathBetween(ctl.GlobalLinks(mp), route, s, t);
  }

  /** On some subnet there is a usable path of clusters that say yes in every attempt. */
  ghost predicate HasSteadyPath(ctl: Controller, s: Router, t: Router, answers: (nat, Router) -> bool)
    requires ctl.Layout()
    reads ctl`isGlobalSearch, ctl`maxGridX, ctl`maxGridY, ctl.borderInput, ctl.borderOutput, ctl.available
  {
    exists mp: nat, route ::
      mp < ctl.csNets && PathBetween(ctl.GlobalLinks(mp), route, s, t) && AlwaysYes(route, answers)
  }

  ghost predicate AlwaysYes(route: seq<Router>, answers: (nat, Router) -> bool) {
    forall k, c :: c in route ==> answers(k, c)
  }

  lemma SteadyPathStarts(ctl: Controller, s: Router, t: Router, answers: (nat, Router) -> bool)
    returns (mp: nat, route: seq<Router>)
    requires ctl.Layout() && HasSteadyPath(ctl, s, t, answers)
    ensures mp < ctl.csNets && IsSteadyPath(route, OpenCrossings(ctl, mp), Enabled(ctl), mp, s, t, answers)
  {
    hide OpenCrossings, Enabled, Controller.GlobalLinks;
    mp, route :|
      mp < ctl.csNets && PathBetween(ctl.GlobalLinks(mp), route, s, t) && AlwaysYes(route, answers);
    EnabledCrossings(ctl, mp);
    forall i | 0 < i < |route| ensures (route[i], mp) in Enabled(ctl) {
      assert (route[i - 1], route[i - 1 + 1]) in ctl.GlobalLinks(mp);
    }
  }

  /**
   * Main result: establishing a path between two clusters always stops, after at most one attempt more than there are
   * enabled (cluster, subnet) pairs. It succeeds with a path all of whose clusters said yes, or fails when no subnet
   * has a path left. The answers of the clusters, attempt by attempt, are arbitrary; where some subnet has at the start
   * a path of clusters that say yes in every attempt, it does succeed.
   */
  method EstablishGlobalPath(ctl: Controller, s: Router, t: Router, utilization: (Router, nat) -> nat,
                             answers: (nat, Router) -> bool)
    returns (subnet: int, attempts: nat)
    requires ctl.Shaped() && ctl.csNets > 0 && s != t
    requires InGrid(s, ctl.xClusterNum, ctl.yClusterNum) && InGrid(t, ctl.xClusterNum, ctl.yClusterNum)
    modifies ctl`lastNlist, ctl`lastPlist, ctl.detour, ctl.nlist, ctl.plist, ctl.csInport, ctl.subnetUtilization,
             ctl`clusterPath,
             ctl`isGlobalSearch, ctl`maxGridX, ctl`maxGridY, ctl.available
    ensures ctl.Shaped() && ctl.Table() == old(ctl.Table())
    ensures 1 <= attempts && attempts - 1 + |Enabled(ctl)| <= |old(Enabled(ctl))| && Enabled(ctl) <= old(Enabled(ctl))
    ensures -1 <= subnet < ctl.csNets
    ensures subnet >= 0 ==>
      && IsClusterPath(ctl.GlobalLinks(subnet), ctl.clusterPath, s, t)
      && AllYes(ctl.clusterPath, c => answers(attempts, c))
    ensures subnet == -1 ==> NoneRoutable(ctl, s, t, ctl.csNets)
    ensures old(HasSteadyPath(ctl, s, t, answers)) ==> subnet >= 0
  {
    hide HasSteadyPath, IsSteadyPath, OpenCrossings, Enabled, Reachable, IsClusterPath, AllYes, Controller.GlobalLinks;
    attempts := 1;
    ghost var steady, mp: nat, route := HasSteadyPath(ctl, s, t, answers), 0, [];
    if steady { mp, route := SteadyPathStarts(ctl, s, t, answers); }
    ghost var crossings := if steady then OpenCrossings(ctl, mp) else {};
    while true
      invariant ctl.Shaped() && ctl.Table() == old(ctl.Table())
      invariant 1 <= attempts && attempts - 1 + |Enabled(ctl)| <= |old(Enabled(ctl))|
      invariant Enabled(ctl) <= old(Enabled(ctl))
      invariant steady ==> mp < ctl.csNets && crossings == OpenCrossings(ctl, mp)
      invariant steady ==> IsSteadyPath(route, crossings, Enabled(ctl), mp, s, t, answers)
      decreases |Enabled(ctl)|
    {
      ghost var enabled := Enabled(ctl);
      var allOk;
      subnet, allOk := Attempt(ctl, s, t, attempts, utilization, c => answers(attempts, c));
      if steady {
        SteadyPathStays(route, crossings, enabled, Enabled(ctl), mp, s, t, answers, attempts, subnet);
        if subnet == -1 { SteadyPathIsUsable(ctl, route, mp, s, t, answers); }
      }
      if subnet == -1 || allOk { return; }
      FewerEnabled(Enabled(ctl), enabled);
      attempts := attempts + 1;
    }
  }
}
