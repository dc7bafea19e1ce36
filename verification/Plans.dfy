/** What a retrace works from, a finished search and the circuit its discovery tree stands for, and when it keeps to that circuit. */
module Plans {
  import opened Grid
  import opened Search
  import opened Circuits
  import opened Walks

  /** The usable hops and popped routers of a search, the port table it saw, and the circuit to be built. */
  datatype RetracePlan = RetracePlan(links: Links, popped: seq<Router>, table: Table, circuit: Circuit, w: int, h: int,
                                     nets: int)

  ghost predicate IsPlan(p: RetracePlan) {
    && DiscoveryList(p.links, p.popped)
    && p.circuit.route == Route(p.links, p.popped, |p.popped| - 1)
    && (forall r :: r in p.popped ==> InGrid(r, p.w, p.h))
    && (forall l :: l in p.links ==> Adjacent(l.0, l.1))
    && Distinct(p.circuit.route)
    && Complete(p.table, p.w, p.h, p.nets)
    && p.circuit.net < p.nets && p.circuit.inport != LocalOut && p.circuit.outport != LocalIn
  }

  type Plan = p: RetracePlan | IsPlan(p) ghost witness TrivialPlan()

  ghost function TrivialPlan(): (p: RetracePlan)
    ensures IsPlan(p)
  {
    var table := map s | s in AllSlots(1, 1, 1) :: Free;
    RetracePlan({}, [Router(0, 0)], table, Circuit(0, [Router(0, 0)], LocalIn, LocalOut), 1, 1, 1)
  }

  /** The retrace stands at position p of the list, which is position j of the route. */
  ghost predicate At(plan: Plan, p: int, j: int) {
    OnBranch(plan.links, plan.popped, plan.circuit.route, p, j)
  }

  lemma AtFacts(plan: Plan, p: int, j: int)
    requires At(plan, p, j)
    ensures 0 <= p < |plan.popped| && 0 <= j < |plan.circuit.route|
    ensures plan.circuit.route[j] == plan.popped[p] && (p == 0 <==> j == 0)
    ensures InGrid(plan.popped[p], plan.w, plan.h)
    ensures InSlot(plan.circuit, j) in plan.table
    ensures j == 0 ==> InPort(plan.circuit, j) == plan.circuit.inport
    ensures j < |plan.circuit.route| - 1 ==> OutPort(plan.circuit, j) != LocalOut
    ensures j == |plan.circuit.route| - 1 ==> OutPort(plan.circuit, j) == plan.circuit.outport
  {
    BranchStep(plan.links, plan.popped, plan.circuit.route, p, j);
    assert plan.popped[p] in plan.popped;
    var s := InSlot(plan.circuit, j);
    assert InGrid(s.at, plan.w, plan.h) && s.net < plan.nets <==> s in plan.table;
  }

  lemma AtEnd(plan: Plan)
    ensures plan.popped != [] && plan.circuit.route != []
    ensures At(plan, |plan.popped| - 1, |plan.circuit.route| - 1)
    ensures plan.circuit.route[|plan.circuit.route| - 1] == plan.popped[|plan.popped| - 1]
    ensures |plan.popped| == 1 <==> |plan.circuit.route| == 1
    ensures |plan.popped| == 1 ==> plan.circuit.route == plan.popped
    ensures OutSlot(plan.circuit) in plan.table
  {
    var route, n := plan.circuit.route, |plan.popped| - 1;
    assert route[..|route|] == route;
    if n > 0 {
      assert |Route(plan.links, plan.popped, n)| > 1;
    }
    assert plan.popped[n] in plan.popped;
    var s := OutSlot(plan.circuit);
    assert InGrid(s.at, plan.w, plan.h) && s.net < plan.nets <==> s in plan.table;
  }

  /** One step back: the discoverer of the current router precedes it both in the list and on the route. */
  lemma StepBack(plan: Plan, p: int, j: int)
    requires At(plan, p, j) && p > 0
    ensures 0 < j < |plan.circuit.route| && 0 < p < |plan.popped|
    ensures var k := Before(plan, p, j);
      && 0 <= k < p && At(plan, k, j - 1)
      && (plan.popped[k], plan.popped[p]) in plan.links
      && (forall m :: 0 <= m < k ==> (plan.popped[m], plan.popped[p]) !in plan.links)
      && Adjacent(plan.popped[p], plan.popped[k])
      && InPort(plan.circuit, j) == Facing(plan.popped[p], plan.popped[k])
      && OutPort(plan.circuit, j - 1) == Opposite(Facing(plan.popped[p], plan.popped[k]))
  {
    BranchStep(plan.links, plan.popped, plan.circuit.route, p, j);
    var k := Parent(plan.links, plan.popped, p);
    assert (plan.popped[k], plan.popped[p]) in plan.links;
    BranchStep(plan.links, plan.popped, plan.circuit.route, k, j - 1);
    var a, b := plan.popped[p], plan.popped[k];
    FacingIsMutual(a, b, Facing(a, b));
  }

  ghost function Before(plan: Plan, p: int, j: int): int
    requires At(plan, p, j) && p > 0
  {
    Parent(plan.links, plan.popped, p)
  }

  // ----- retracing with ports that have turned faulty since the search

  /** The retrace of the plan, in either search mode. */
  ghost function WayOf(plan: Plan, isGlobal: bool): Way {
    var c := plan.circuit;
    Way(isGlobal, if isGlobal then plan.links else {}, plan.popped, c.net, c.inport, c.outport, plan.w, plan.h)
  }

  ghost predicate IsLocalPlan(plan: Plan) {
    plan.links == LocalLinks(plan.table, plan.circuit.net, plan.w, plan.h)
  }

  /** `b` was popped right after `a`. */
  ghost predicate PoppedRightBefore(popped: seq<Router>, a: Router, b: Router) {
    exists q :: 0 <= q < |popped| - 1 && popped[q] == a && popped[q + 1] == b
  }

  /**
   * The hop into position j is still free, or the router before it was popped right before it: the walk then comes to
   * that router untested. From the target it does not, as there it ends on the target itself.
   */
  ghost predicate StepSurvives(popped: seq<Router>, c: Circuit, slots: set<Slot>, j: int)
    requires 1 <= j < |c.route|
  {
    InSlot(c, j) in slots ==> j < |c.route| - 1 && PoppedRightBefore(popped, c.route[j - 1], c.route[j])
  }

  /** Every hop of the route survives the loss of these ports. */
  ghost predicate Survives(popped: seq<Router>, c: Circuit, slots: set<Slot>) {
    forall j :: 1 <= j < |c.route| ==> StepSurvives(popped, c, slots, j)
  }

  /** The side ports of the routers up to position j are as they were in the search, but for the given ones. */
  ghost predicate Agrees(plan: Plan, slots: set<Slot>, t: Table, j: int)
    requires j < |plan.circuit.route|
  {
    forall i, p {:trigger Slot(plan.circuit.route[i], plan.circuit.net, p)} :: 0 <= i <= j && IsSide(p) ==>
      var s := Slot(plan.circuit.route[i], plan.circuit.net, p);
      s in plan.table && s in t && t[s] == if s in slots then Blocked else plan.table[s]
  }

  /** Where the walk looks from: the last router is not told apart from those before it. */
  ghost function Index(plan: Plan, p: int, j: int): int {
    if j == |plan.circuit.route| - 1 && p > 0 then p else p - 1
  }

  /** A hop is usable now exactly when it was in the search and has not been lost. */
  lemma HopNow(plan: Plan, slots: set<Slot>, t: Table, p: int, j: int, u: Router)
    requires At(plan, p, j) && IsLocalPlan(plan) && Agrees(plan, slots, t, j) && InGrid(u, plan.w, plan.h)
    ensures (u, plan.popped[p]) in LocalLinks(t, plan.circuit.net, plan.w, plan.h) <==>
      (u, plan.popped[p]) in plan.links && Slot(plan.popped[p], plan.circuit.net, Facing(plan.popped[p], u)) !in slots
  {
    AtFacts(plan, p, j);
    var cur := plan.popped[p];
    var s := Slot(plan.circuit.route[j], plan.circuit.net, Facing(cur, u));
    hide At, IsPlan;
    assert s in plan.table && s in t && t[s] == if s in slots then Blocked else plan.table[s];
  }

  lemma HopsNow(plan: Plan, isGlobal: bool, slots: set<Slot>, t: Table, p: int, j: int)
    requires At(plan, p, j) && (!isGlobal ==> IsLocalPlan(plan) && Agrees(plan, slots, t, j))
    ensures var cur := plan.popped[p];
      forall k {:trigger plan.popped[k]} :: 0 <= k < |plan.popped| ==>
        ((plan.popped[k], cur) in Open(WayOf(plan, isGlobal), t) <==>
         (plan.popped[k], cur) in plan.links && (isGlobal || Slot(cur, plan.circuit.net, Facing(cur, plan.popped[k])) !in slots))
  {
    AtFacts(plan, p, j);
    PoppedFits(plan);
    hide At, IsPlan, Agrees, LocalLinks, IsLocalPlan;
    if !isGlobal {
      forall k | 0 <= k < |plan.popped| {
        HopNow(plan, slots, t, p, j, plan.popped[k]);
      }
    }
  }

  lemma PoppedFits(plan: Plan)
    ensures forall k :: 0 <= k < |plan.popped| ==> InGrid(plan.popped[k], plan.w, plan.h)
    ensures forall k, m :: 0 <= k < m < |plan.popped| ==> plan.popped[k] != plan.popped[m]
  {
    forall k | 0 <= k < |plan.popped| ensures InGrid(plan.popped[k], plan.w, plan.h) {
      assert plan.popped[k] in plan.popped;
    }
  }

  lemma RightBeforeHere(popped: seq<Router>, k: int, p: int)
    requires 0 <= k < p < |popped|
    requires forall k, m :: 0 <= k < m < |popped| ==> popped[k] != popped[m]
    ensures PoppedRightBefore(popped, popped[k], popped[p]) <==> k == p - 1
  {
    if k == p - 1 {
      assert popped[k + 1] == popped[p];
    }
  }

  /** One step back comes to the router before it on the route exactly when its hop survives. */
  lemma FindsParent(plan: Plan, isGlobal: bool, slots: set<Slot>, t: Table, p: int, j: int)
    requires At(plan, p, j) && 0 < p < |plan.popped| && 0 < j < |plan.circuit.route|
    requires !isGlobal ==> IsLocalPlan(plan) && Agrees(plan, slots, t, j)
    requires j == |plan.circuit.route| - 1 <==> p == |plan.popped| - 1
    ensures Previous(Open(WayOf(plan, isGlobal), t), plan.popped, plan.popped[p], 0, Index(plan, p, j)) == Before(plan, p, j)
      <==> isGlobal || StepSurvives(plan.popped, plan.circuit, slots, j)
  {
    StepBack(plan, p, j);
    AtFacts(plan, p, j);
    HopsNow(plan, isGlobal, slots, t, p, j);
    PoppedFits(plan);
    var k := Before(plan, p, j);
    AtFacts(plan, k, j - 1);
    RightBeforeHere(plan.popped, k, p);
    hide At, IsPlan, Agrees, LocalLinks, IsLocalPlan, Open, Before, WayOf, FirstLink, PoppedRightBefore;
  }

  /** The end ports are usable: free where the circuit starts and ends, and at the border unless they are local. */
  ghost predicate EndsFree(plan: Plan) {
    && plan.popped != []
    && var first, last := plan.popped[0], plan.popped[|plan.popped| - 1];
    && var net, inport, outport := plan.circuit.net, plan.circuit.inport, plan.circuit.outport;
    && Slot(first, net, inport) in plan.table && plan.table[Slot(first, net, inport)] == Free
    && (outport == LocalOut ==> Slot(last, net, LocalOut) in plan.table && plan.table[Slot(last, net, LocalOut)] == Free)
    && (IsSide(inport) ==> !InGrid(Step(first, inport), plan.w, plan.h))
    && (IsSide(outport) ==> !InGrid(Step(last, outport), plan.w, plan.h))
  }

  /** The planned circuit is a simple chain on ports that the search found free. */
  lemma PlannedCircuitIsFree(plan: Plan)
    requires IsLocalPlan(plan) && EndsFree(plan)
    ensures WellFormed(plan.circuit, plan.w, plan.h, plan.nets)
    ensures AllFree(plan.table, plan.circuit)
  {
    RouteIsSimplePath(plan.links, plan.popped, |plan.popped| - 1);
    PlannedSlotsAreFree(plan);
    PlannedIsWellFormed(plan);
    hide WellFormed, IsPlan, IsLocalPlan;
    assert plan.popped[|plan.popped| - 1] == Last(plan.circuit);
  }

  lemma PlannedIsWellFormed(plan: Plan)
    requires EndsFree(plan) && IsPath(plan.links, plan.circuit.route)
    requires plan.circuit.route[0] == plan.popped[0] && Last(plan.circuit) == plan.popped[|plan.popped| - 1]
    requires forall r :: r in plan.circuit.route ==> r in plan.popped
    ensures WellFormed(plan.circuit, plan.w, plan.h, plan.nets)
  {
    var c := plan.circuit;
    hide DiscoveryList, Complete;
    forall r | r in c.route ensures InGrid(r, plan.w, plan.h) {
      assert r in plan.popped;
    }
    forall j | 0 <= j < |c.route| - 1 ensures Adjacent(c.route[j], c.route[j + 1]) {
      assert (c.route[j], c.route[j + 1]) in plan.links;
    }
  }

  lemma PlannedSlotsAreFree(plan: Plan)
    requires IsLocalPlan(plan)
    requires IsPath(plan.links, plan.circuit.route) && plan.popped != []
    requires plan.circuit.route[0] == plan.popped[0]
    requires Slot(plan.popped[0], plan.circuit.net, plan.circuit.inport) in plan.table
    requires plan.table[Slot(plan.popped[0], plan.circuit.net, plan.circuit.inport)] == Free
    ensures forall j {:trigger InSlot(plan.circuit, j)} :: 0 <= j < |plan.circuit.route| ==>
      InSlot(plan.circuit, j) in plan.table && plan.table[InSlot(plan.circuit, j)] == Free
  {
    var c := plan.circuit;
    forall j | 0 <= j < |c.route| ensures InSlot(c, j) in plan.table && plan.table[InSlot(c, j)] == Free {
      if j > 0 {
        assert (c.route[j - 1], c.route[j]) in plan.links;
      }
    }
  }

  /** The last router of the list is the last of the route, and no other is. */
  lemma LastIsLast(plan: Plan, p: int, j: int)
    requires At(plan, p, j)
    ensures 0 <= p < |plan.popped| && 0 <= j < |plan.circuit.route|
    ensures j == |plan.circuit.route| - 1 <==> p == |plan.popped| - 1
    ensures p == 0 <==> j == 0
  {
    AtEnd(plan);
    AtFacts(plan, p, j);
    PoppedFits(plan);
    hide At;
  }

  /** Writing a router's own entry leaves those not yet reached alone. */
  lemma StillAgrees(plan: Plan, slots: set<Slot>, t: Table, j: int, port: Port, e: Entry)
    requires 0 < j < |plan.circuit.route| && Agrees(plan, slots, t, j)
    ensures Agrees(plan, slots, t[Slot(plan.circuit.route[j], plan.circuit.net, port) := e], j - 1)
  {
  }

  /** From position j on, the walk passes the route's own routers exactly when all hops from there on survive. */
  lemma {:induction false} WalkFollowsRoute(plan: Plan, isGlobal: bool, slots: set<Slot>, t: Table, p: int, j: int)
    requires At(plan, p, j) && (!isGlobal ==> IsLocalPlan(plan) && Agrees(plan, slots, t, j))
    ensures 0 <= p < |plan.popped| && 0 <= j < |plan.circuit.route|
    ensures var walk := Walk(WayOf(plan, isGlobal), t, Index(plan, p, j), plan.popped[p], OutPort(plan.circuit, j));
      walk == Entries(plan.circuit, j)
      <==> isGlobal || forall m :: 1 <= m <= j ==> StepSurvives(plan.popped, plan.circuit, slots, m)
    decreases p
  {
    hide At, IsPlan, Agrees, LocalLinks, IsLocalPlan, Open, Before, StepSurvives, InPort, OutPort;
    LastIsLast(plan, p, j);
    AtFacts(plan, p, j);
    if p > 0 {
      WalkStep(plan, isGlobal, slots, t, p, j);
    }
  }

  lemma {:induction false} WalkStep(plan: Plan, isGlobal: bool, slots: set<Slot>, t: Table, p: int, j: int)
    requires At(plan, p, j) && 0 < p < |plan.popped| && 0 < j < |plan.circuit.route|
    requires !isGlobal ==> IsLocalPlan(plan) && Agrees(plan, slots, t, j)
    ensures var walk := Walk(WayOf(plan, isGlobal), t, Index(plan, p, j), plan.popped[p], OutPort(plan.circuit, j));
      walk == Entries(plan.circuit, j)
      <==> isGlobal || forall m :: 1 <= m <= j ==> StepSurvives(plan.popped, plan.circuit, slots, m)
    decreases p, 0
  {
    hide At, IsPlan, Agrees, LocalLinks, IsLocalPlan, Open, Before, StepSurvives, InPort, OutPort, Walk, After;
    StepBack(plan, p, j);
    var c, k := plan.circuit, Before(plan, p, j);
    var way, own := WayOf(plan, isGlobal), OwnHop(c, j);
    var rest := Walk(way, After(way, t, own), k - 1, plan.popped[k], OutPort(c, j - 1));
    if isGlobal || StepSurvives(plan.popped, c, slots, j) {
      OneStepBack(plan, isGlobal, slots, t, p, j);
      if !isGlobal { OwnHopAgrees(plan, slots, t, j); }
      WalkFollowsRoute(plan, isGlobal, slots, After(way, t, own), k, j - 1);
      Appended(own, rest, Entries(c, j - 1));
    } else {
      GoesAstray(plan, slots, t, p, j);
    }
  }

  lemma OwnHopAgrees(plan: Plan, slots: set<Slot>, t: Table, j: int)
    requires 0 < j < |plan.circuit.route| && Agrees(plan, slots, t, j)
    ensures Agrees(plan, slots, After(WayOf(plan, false), t, OwnHop(plan.circuit, j)), j - 1)
  {
    hide Agrees;
    StillAgrees(plan, slots, t, j, InPort(plan.circuit, j), To(OutPort(plan.circuit, j)));
  }

  /** A hop that survives takes the walk to the router before it on the route. */
  lemma OneStepBack(plan: Plan, isGlobal: bool, slots: set<Slot>, t: Table, p: int, j: int)
    requires At(plan, p, j) && 0 < p < |plan.popped| && 0 < j < |plan.circuit.route|
    requires !isGlobal ==> IsLocalPlan(plan) && Agrees(plan, slots, t, j)
    requires isGlobal || StepSurvives(plan.popped, plan.circuit, slots, j)
    ensures 0 <= Before(plan, p, j) < p && Index(plan, Before(plan, p, j), j - 1) == Before(plan, p, j) - 1
    ensures var way, own, k := WayOf(plan, isGlobal), OwnHop(plan.circuit, j), Before(plan, p, j);
      Walk(way, t, Index(plan, p, j), plan.popped[p], OutPort(plan.circuit, j)) ==
        [own] + Walk(way, After(way, t, own), k - 1, plan.popped[k], OutPort(plan.circuit, j - 1))
  {
    hide At, IsPlan, Agrees, LocalLinks, IsLocalPlan, Open, Before, StepSurvives, InPort, OutPort, After;
    LastIsLast(plan, p, j);
    StepBack(plan, p, j);
    AtFacts(plan, p, j);
    FindsParent(plan, isGlobal, slots, t, p, j);
  }

  /** After a hop that does not survive, the walk passes a router that is not the next one of the route. */
  lemma GoesAstray(plan: Plan, slots: set<Slot>, t: Table, p: int, j: int)
    requires At(plan, p, j) && 0 < p < |plan.popped| && 0 < j < |plan.circuit.route|
    requires IsLocalPlan(plan) && Agrees(plan, slots, t, j) && !StepSurvives(plan.popped, plan.circuit, slots, j)
    ensures Walk(WayOf(plan, false), t, Index(plan, p, j), plan.popped[p], OutPort(plan.circuit, j)) != Entries(plan.circuit, j)
  {
    LastIsLast(plan, p, j);
    StepBack(plan, p, j);
    FindsParent(plan, false, slots, t, p, j);
    AtFacts(plan, Before(plan, p, j), j - 1);
    PoppedFits(plan);
    hide At, IsPlan, Agrees, LocalLinks, IsLocalPlan, Open, Before, StepSurvives, InPort, OutPort, After, Entries, Walk;
    var way, c := WayOf(plan, false), plan.circuit;
    SecondRouter(way, t, Index(plan, p, j), plan.popped[p], OutPort(c, j));
    EntryAt(c, j, 1);
  }

  lemma Appended(hop: Hop, a: seq<Hop>, b: seq<Hop>)
    ensures [hop] + a == [hop] + b <==> a == b
  {
    assert ([hop] + a)[1..] == a && ([hop] + b)[1..] == b;
  }

  lemma MarkedAgrees(plan: Plan, slots: set<Slot>)
    ensures plan.popped != [] && plan.circuit.route != []
    ensures Agrees(plan, slots, Marked(WayOf(plan, false), Faulted(plan.table, slots)), |plan.circuit.route| - 1)
  {
    AtEnd(plan);
    var c := plan.circuit;
    RouteIsSimplePath(plan.links, plan.popped, |plan.popped| - 1);
    forall i, p | 0 <= i < |c.route| ensures Slot(c.route[i], c.net, p) in plan.table {
      assert c.route[i] in c.route && c.route[i] in plan.popped;
      var s := Slot(c.route[i], c.net, p);
      assert InGrid(s.at, plan.w, plan.h) && s.net < plan.nets <==> s in plan.table;
    }
  }

  /**
   * Main result: a retrace passes the routers of the route that was found, from the target back and by the ports of the
   * route, exactly when every hop of the route survives the ports lost since the search. What else has been lost does
   * not matter.
   */
  lemma RetraceFollowsRoute(plan: Plan, isGlobal: bool, slots: set<Slot>, t: Table)
    requires if isGlobal then |plan.popped| > 1 else IsLocalPlan(plan) && t == Faulted(plan.table, slots)
    ensures plan.popped != [] && plan.circuit.route != []
    ensures Marks(WayOf(plan, isGlobal), t) == AllEntries(plan.circuit)
      <==> isGlobal || Survives(plan.popped, plan.circuit, slots)
  {
    hide At, IsPlan, Agrees, LocalLinks, IsLocalPlan, StepSurvives, Walk, Entries, Marked, Faulted, Open, After,
      InPort, OutPort;
    AtEnd(plan);
    MarkedAgrees(plan, slots);
    var n, m := |plan.popped| - 1, |plan.circuit.route| - 1;
    AtFacts(plan, n, m);
    WalkFollowsRoute(plan, isGlobal, slots, Marked(WayOf(plan, isGlobal), t), n, m);
  }

  /** Losing ports that the circuit does not use makes no difference. */
  lemma OthersDoNotMatter(popped: seq<Router>, c: Circuit, slots: set<Slot>)
    requires forall s :: s in slots ==> !Owns(c, s)
    ensures Survives(popped, c, slots)
  {
    forall j | 1 <= j < |c.route| ensures InSlot(c, j) !in slots {
      assert Owns(c, InSlot(c, j));
    }
  }

  /** Written over whatever has turned faulty, the route's own entries install the circuit. */
  lemma PlannedInstall(plan: Plan, slots: set<Slot>)
    ensures plan.popped != [] && plan.circuit.route != []
    ensures var t := Faulted(plan.table, slots);
      Installed(t, Written(Marked(WayOf(plan, false), t), plan.circuit.net, AllEntries(plan.circuit)), plan.circuit)
  {
    AtEnd(plan);
    var c := plan.circuit;
    RouteIsSimplePath(plan.links, plan.popped, |plan.popped| - 1);
    forall j | 0 <= j < |c.route| ensures InSlot(c, j) in plan.table {
      assert c.route[j] in c.route && c.route[j] in plan.popped;
      var s := InSlot(c, j);
      assert InGrid(s.at, plan.w, plan.h) && s.net < plan.nets <==> s in plan.table;
    }
    hide Installed, IsPlan, AllEntries, Marked, Written;
    EntriesInstall(WayOf(plan, false), Faulted(plan.table, slots), c);
  }
}
