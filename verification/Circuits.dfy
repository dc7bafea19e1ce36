/** Port tables and the circuits stored in them. */
module Circuits {
  import opened Grid
  import opened Search

  /** A port-table entry: the codes -1, an output port, and 9. */
  datatype Entry = Free | To(port: Port) | Blocked

  datatype Slot = Slot(at: Router, net: nat, port: Port)

  type Table = map<Slot, Entry>

  /** A reserved route on one subnet, entering its first router at `inport` and leaving its last one at `outport`. */
  datatype Circuit = Circuit(net: nat, route: seq<Router>, inport: Port, outport: Port)

  ghost function AllSlots(w: int, h: int, nets: int): (slots: set<Slot>)
    ensures forall s: Slot :: s in slots <==> InGrid(s.at, w, h) && s.net < nets
  {
    var slots := set x, y, n: nat, p: Port | 0 <= x < w && 0 <= y < h && n < nets :: Slot(Router(x, y), n, p);
    assert forall s: Slot :: s == Slot(Router(s.at.x, s.at.y), s.net, s.port);
    slots
  }

  ghost predicate Complete(t: Table, w: int, h: int, nets: int) {
    forall s: Slot :: InGrid(s.at, w, h) && s.net < nets <==> s in t
  }

  /** The hops whose input port at the far end is free. */
  ghost function LocalLinks(t: Table, net: nat, w: int, h: int): (links: Links)
    ensures OnGrid(links, w, h)
  {
    set u, v | u in Cells(w, h) && v in Cells(w, h) && Adjacent(u, v)
               && Slot(v, net, Facing(v, u)) in t && t[Slot(v, net, Facing(v, u))] == Free :: (u, v)
  }

  /** A simple chain of neighbours that leaves the grid at both ends unless it ends at local ports. */
  ghost predicate WellFormed(c: Circuit, w: int, h: int, nets: int) {
    && c.net < nets
    && c.route != []
    && (forall r :: r in c.route ==> InGrid(r, w, h))
    && (forall j :: 0 <= j < |c.route| - 1 ==> Adjacent(c.route[j], c.route[j + 1]))
    && Distinct(c.route)
    && c.inport != LocalOut && c.outport != LocalIn
    && (IsSide(c.inport) ==> !InGrid(Step(c.route[0], c.inport), w, h))
    && (IsSide(c.outport) ==> !InGrid(Step(Last(c), c.outport), w, h))
  }

  ghost predicate IsLocal(c: Circuit) {
    c.inport == LocalIn && c.outport == LocalOut
  }

  function Last(c: Circuit): Router
    requires c.route != []
  {
    c.route[|c.route| - 1]
  }

  /** The input port of the j-th router: the entry port, or the side of its predecessor. */
  function InPort(c: Circuit, j: int): Port
    requires 0 <= j < |c.route|
  {
    if j == 0 then c.inport else Facing(c.route[j], c.route[j - 1])
  }

  /** The output port of the j-th router: the exit port, or the side of its successor. */
  function OutPort(c: Circuit, j: int): Port
    requires 0 <= j < |c.route|
  {
    if j == |c.route| - 1 then c.outport else Facing(c.route[j], c.route[j + 1])
  }

  /** The table entry of the j-th router. */
  function InSlot(c: Circuit, j: int): Slot
    requires 0 <= j < |c.route|
  {
    Slot(c.route[j], c.net, InPort(c, j))
  }

  function OutSlot(c: Circuit): Slot
    requires c.route != []
  {
    Slot(Last(c), c.net, LocalOut)
  }

  /** Everything a circuit occupies. */
  ghost predicate Owns(c: Circuit, s: Slot) {
    || (exists j :: 0 <= j < |c.route| && s == InSlot(c, j))
    || (c.route != [] && c.outport == LocalOut && s == OutSlot(c))
  }

  /** The table holds the circuit: following it from the entry port leads along the route to the exit port. */
  ghost predicate Carries(t: Table, c: Circuit) {
    && (forall j :: 0 <= j < |c.route| ==> InSlot(c, j) in t && t[InSlot(c, j)] == To(OutPort(c, j)))
    && (c.route != [] && c.outport == LocalOut ==> OutSlot(c) in t && t[OutSlot(c)] == Blocked)
  }

  ghost predicate AllFree(t: Table, c: Circuit) {
    forall s :: Owns(c, s) ==> s in t && t[s] == Free
  }

  ghost predicate Installed(t: Table, t': Table, c: Circuit) {
    && t'.Keys == t.Keys
    && Carries(t', c)
    && forall s :: s in t && !Owns(c, s) ==> t'[s] == t[s]
  }

  ghost predicate Cleared(t: Table, t': Table, c: Circuit) {
    && t'.Keys == t.Keys
    && forall s :: s in t ==> t'[s] == if Owns(c, s) then Free else t[s]
  }

  /** The routers a circuit passes on its way, those that neither take it from nor hand it to a local port. */
  function Hops(c: Circuit): nat {
    var ends := (if c.inport == LocalIn then 1 else 0) + (if c.outport == LocalOut then 1 else 0);
    if |c.route| < ends then 0 else |c.route| - ends
  }

  // ----- installing from the target back, clearing from the source on

  ghost predicate OwnsFrom(c: Circuit, j: int, s: Slot)
    requires 0 <= j
  {
    || (exists i :: j <= i < |c.route| && s == InSlot(c, i))
    || (c.route != [] && c.outport == LocalOut && s == OutSlot(c))
  }

  /** The routers from position j on are set, and nothing else has changed. */
  ghost predicate InstalledFrom(t: Table, t': Table, c: Circuit, j: int)
    requires 0 <= j
  {
    && t'.Keys == t.Keys
    && (forall i :: j <= i < |c.route| ==> InSlot(c, i) in t' && t'[InSlot(c, i)] == To(OutPort(c, i)))
    && (c.route != [] && c.outport == LocalOut ==> OutSlot(c) in t' && t'[OutSlot(c)] == Blocked)
    && (forall s :: s in t && !OwnsFrom(c, j, s) ==> t'[s] == t[s])
  }

  lemma StartInstall(t: Table, c: Circuit)
    requires c.route != [] && (c.outport == LocalOut ==> OutSlot(c) in t)
    ensures InstalledFrom(t, if c.outport == LocalOut then t[OutSlot(c) := Blocked] else t, c, |c.route|)
  {
  }

  lemma InstallStep(t: Table, t': Table, c: Circuit, j: int)
    requires 0 <= j < |c.route| && Distinct(c.route) && c.inport != LocalOut
    requires InstalledFrom(t, t', c, j + 1) && InSlot(c, j) in t
    ensures InstalledFrom(t, t'[InSlot(c, j) := To(OutPort(c, j))], c, j)
  {
    var s0 := InSlot(c, j);
    assert s0 != OutSlot(c);
    forall i | j < i < |c.route| ensures InSlot(c, i) != s0 {
    }
    forall s | s in t && !OwnsFrom(c, j, s) ensures s != s0 && t'[s] == t[s] {
      assert !OwnsFrom(c, j + 1, s);
    }
  }

  lemma InstalledFromStart(t: Table, t': Table, c: Circuit)
    requires InstalledFrom(t, t', c, 0)
    ensures Installed(t, t', c)
  {
    forall s | !Owns(c, s) ensures !OwnsFrom(c, 0, s) {
    }
  }

  ghost predicate OwnsBefore(c: Circuit, j: int, s: Slot)
    requires j <= |c.route|
  {
    exists i :: 0 <= i < j && s == InSlot(c, i)
  }

  /** The first j routers are free again, and nothing else has changed. */
  ghost predicate ClearedUpTo(t: Table, t': Table, c: Circuit, j: int)
    requires 0 <= j <= |c.route|
  {
    && t'.Keys == t.Keys
    && forall s :: s in t ==> t'[s] == if OwnsBefore(c, j, s) then Free else t[s]
  }

  lemma ClearStep(t: Table, t': Table, c: Circuit, j: int)
    requires 0 <= j < |c.route| && InSlot(c, j) in t && ClearedUpTo(t, t', c, j)
    ensures ClearedUpTo(t, t'[InSlot(c, j) := Free], c, j + 1)
  {
    forall s ensures OwnsBefore(c, j + 1, s) <==> OwnsBefore(c, j, s) || s == InSlot(c, j) {
    }
  }

  lemma ClearAll(t: Table, t': Table, c: Circuit)
    requires c.route != [] && ClearedUpTo(t, t', c, |c.route|)
    requires c.outport == LocalOut ==> OutSlot(c) in t
    ensures Cleared(t, if c.outport == LocalOut then t'[OutSlot(c) := Free] else t', c)
  {
    forall s ensures Owns(c, s) <==> OwnsBefore(c, |c.route|, s) || (c.outport == LocalOut && s == OutSlot(c)) {
    }
  }

  /** Routers already freed do not hide the entry of the next one. */
  lemma NextEntry(t: Table, t': Table, c: Circuit, j: int)
    requires 0 <= j < |c.route| && Distinct(c.route) && Carries(t, c) && ClearedUpTo(t, t', c, j)
    ensures InSlot(c, j) in t' && t'[InSlot(c, j)] == To(OutPort(c, j))
  {
    assert !OwnsBefore(c, j, InSlot(c, j));
  }

  ghost predicate ReleasesTo(c: Circuit, s: Router, t: Router, net: nat, inport: Port) {
    && c.net == net && c.inport == inport && c.route != [] && c.route[0] == s
    && if c.outport == LocalOut then Last(c) == t else IsSide(c.outport) && t !in c.route
  }

  /** What following a live circuit finds at its j-th router, the ones before it being free already. */
  lemma ReleaseFacts(t0: Table, t: Table, c: Circuit, j: int, s: Router, target: Router, w: int, h: int, nets: int)
    requires WellFormed(c, w, h, nets) && Carries(t0, c) && Complete(t0, w, h, nets)
    requires ReleasesTo(c, s, target, c.net, c.inport)
    requires 0 <= j < |c.route| && ClearedUpTo(t0, t, c, j) && c.route[j] != target
    ensures InSlot(c, j) in t && t[InSlot(c, j)] == To(OutPort(c, j))
    ensures InGrid(c.route[j], w, h) && InSlot(c, j) == Slot(c.route[j], c.net, InPort(c, j))
    ensures ClearedUpTo(t0, t[InSlot(c, j) := Free], c, j + 1)
    ensures IsSide(OutPort(c, j)) && OutPort(c, j) != LocalOut
    ensures j < |c.route| - 1 ==>
      Step(c.route[j], OutPort(c, j)) == c.route[j + 1] && Opposite(OutPort(c, j)) == InPort(c, j + 1)
    ensures InGrid(Step(c.route[j], OutPort(c, j)), w, h) <==> j < |c.route| - 1
    ensures j == |c.route| - 1 ==> OutPort(c, j) == c.outport && IsSide(c.outport)
    ensures InPort(c, j) == LocalIn <==> j == 0 && c.inport == LocalIn
  {
    assert c.route[j] in c.route;
    NextEntry(t0, t, c, j);
    ClearStep(t0, t, c, j);
    FollowEntry(c, j, w, h, nets);
  }

  /** Arriving at the target of a local circuit, or behind the last router of one that leaves, everything is free. */
  lemma ReleaseArrived(t0: Table, t: Table, c: Circuit, j: int, s: Router, target: Router, w: int, h: int, nets: int)
    requires WellFormed(c, w, h, nets) && Carries(t0, c)
    requires ReleasesTo(c, s, target, c.net, c.inport)
    requires 0 <= j < |c.route| && ClearedUpTo(t0, t, c, j) && c.route[j] == target
    ensures j == |c.route| - 1 && c.outport == LocalOut && InGrid(target, w, h)
    ensures InSlot(c, j) == Slot(target, c.net, InPort(c, j)) && OutSlot(c) == Slot(target, c.net, LocalOut)
    ensures Cleared(t0, t[InSlot(c, j) := Free][OutSlot(c) := Free], c)
    ensures InPort(c, j) == LocalIn <==> j == 0 && c.inport == LocalIn
  {
    assert c.route[j] in c.route;
    assert j == |c.route| - 1;
    ClearStep(t0, t, c, j);
    ClearAll(t0, t[InSlot(c, j) := Free], c);
  }

  /** Following the entry of position j leads to position j + 1, or out of the grid behind the last router. */
  lemma FollowEntry(c: Circuit, j: int, w: int, h: int, nets: int)
    requires WellFormed(c, w, h, nets) && 0 <= j < |c.route|
    requires j < |c.route| - 1 || IsSide(c.outport)
    ensures IsSide(OutPort(c, j)) && OutPort(c, j) != LocalOut
    ensures j < |c.route| - 1 ==>
      Step(c.route[j], OutPort(c, j)) == c.route[j + 1] && Opposite(OutPort(c, j)) == InPort(c, j + 1)
    ensures InGrid(Step(c.route[j], OutPort(c, j)), w, h) <==> j < |c.route| - 1
    ensures InPort(c, j) == LocalIn <==> j == 0 && c.inport == LocalIn
  {
    if j < |c.route| - 1 {
      assert Adjacent(c.route[j], c.route[j + 1]);
      FacingIsMutual(c.route[j], c.route[j + 1], OutPort(c, j));
      assert c.route[j + 1] in c.route;
    }
  }

  /** Clearing a circuit that was just installed on free ports gives back the table. */
  lemma ClearUndoesInstall(t0: Table, t1: Table, t2: Table, c: Circuit)
    requires AllFree(t0, c) && Installed(t0, t1, c) && Cleared(t1, t2, c)
    ensures t2 == t0
  {
    assert forall s :: s in t0 <==> s in t2;
  }

  /** A subnet can take a connection: both local ports are free and free input ports lead from source to target. */
  ghost predicate CanConnect(t: Table, net: nat, source: Router, target: Router, w: int, h: int) {
    && Slot(source, net, LocalIn) in t && t[Slot(source, net, LocalIn)] == Free
    && Slot(target, net, LocalOut) in t && t[Slot(target, net, LocalOut)] == Free
    && Reachable(LocalLinks(t, net, w, h), source, target)
  }

  /**
   * A subnet can take a connection straight away: both local ports are free, and whoever goes nearer to the target hop
   * by hop over free input ports gets there.
   */
  ghost predicate ConnectsDirectly(t: Table, net: nat, source: Router, target: Router, w: int, h: int) {
    && Slot(source, net, LocalIn) in t && t[Slot(source, net, LocalIn)] == Free
    && Slot(target, net, LocalOut) in t && t[Slot(target, net, LocalOut)] == Free
    && NoDeadEnd(LocalLinks(t, net, w, h), source, target)
  }

  /** So it is where both local ports and the rectangle between the two offer no obstacle. */
  lemma FreeRectangleConnects(t: Table, net: nat, source: Router, target: Router, w: int, h: int)
    requires Slot(source, net, LocalIn) in t && t[Slot(source, net, LocalIn)] == Free
    requires Slot(target, net, LocalOut) in t && t[Slot(target, net, LocalOut)] == Free
    requires forall r :: Between(r, source, target) && r != target ==> HasNearer(LocalLinks(t, net, w, h), r, target)
    ensures ConnectsDirectly(t, net, source, target, w, h)
  {
    hide NoDeadEnd, HasNearer;
    RectangleHasNoDeadEnd(LocalLinks(t, net, w, h), source, target);
  }

  /** A local circuit on one subnet, of Manhattan length plus two hops for every unit of detour. */
  ghost predicate Connects(c: Circuit, net: nat, source: Router, target: Router, detour: int) {
    && IsLocal(c) && c.net == net && c.route != [] && c.route[0] == source && Last(c) == target
    && detour >= 0 && |c.route| - 1 == Manhattan(source, target) + 2 * detour
  }

  // ----- many circuits

  ghost predicate Disjoint(c: Circuit, d: Circuit) {
    forall s :: !(Owns(c, s) && Owns(d, s))
  }

  /** Every occupied entry belongs to exactly one live circuit or to a reported fault, and nothing else is occupied. */
  ghost predicate Partition(t: Table, live: seq<Circuit>, faults: set<Slot>, w: int, h: int, nets: int) {
    && Complete(t, w, h, nets)
    && (forall i :: 0 <= i < |live| ==> WellFormed(live[i], w, h, nets) && Carries(t, live[i]))
    && (forall i, j :: 0 <= i < j < |live| ==> Disjoint(live[i], live[j]))
    && (forall s :: s in faults ==> s in t && t[s] == Blocked && !Occupied(live, s))
    && (forall s :: s in t && t[s] != Free ==> s in faults || Occupied(live, s))
  }

  ghost predicate Occupied(live: seq<Circuit>, s: Slot) {
    exists i :: 0 <= i < |live| && Owns(live[i], s)
  }

  function Load(live: seq<Circuit>, net: nat): nat {
    if live == [] then 0
    else Load(live[..|live| - 1], net) + if live[|live| - 1].net == net then Hops(live[|live| - 1]) else 0
  }

  /** Each subnet's counter is the sum of the routers its live circuits pass. */
  ghost predicate Counted(utilization: seq<int>, live: seq<Circuit>) {
    forall n :: 0 <= n < |utilization| ==> utilization[n] == Load(live, n)
  }

  lemma {:induction false} LoadWithout(live: seq<Circuit>, i: int, net: nat)
    requires 0 <= i < |live|
    ensures Load(RemoveAt(live, i), net) + (if live[i].net == net then Hops(live[i]) else 0) == Load(live, net)
  {
    var n := |live| - 1;
    if i == n {
      assert RemoveAt(live, i) == live[..n];
    } else {
      LoadWithout(live[..n], i, net);
      var rest := RemoveAt(live, i);
      assert rest[..|rest| - 1] == RemoveAt(live[..n], i);
      assert rest[|rest| - 1] == live[n];
    }
  }

  lemma InstallKeepsPartition(t: Table, t': Table, live: seq<Circuit>, faults: set<Slot>, c: Circuit, w: int, h: int,
                              nets: int)
    requires Partition(t, live, faults, w, h, nets)
    requires WellFormed(c, w, h, nets) && AllFree(t, c) && Installed(t, t', c)
    ensures Partition(t', live + [c], faults, w, h, nets)
  {
    forall i | 0 <= i < |live| ensures Disjoint(live[i], c) && Carries(t', live[i]) {
      FreeIsDisjoint(t, live[i], c);
      KeepsCarrying(t, t', live[i], c);
    }
    var live' := live + [c];
    assert live'[|live|] == c;
    forall s | s in t' && t'[s] != Free ensures s in faults || Occupied(live', s) {
      if Owns(c, s) {
        assert Owns(live'[|live|], s);
      } else if s !in faults {
        var i :| 0 <= i < |live| && Owns(live[i], s);
        assert Owns(live'[i], s);
      }
    }
    forall s | s in faults ensures t'[s] == Blocked && !Occupied(live', s) {
      assert !Owns(c, s) && !Occupied(live, s);
    }
  }

  lemma EmptyPartition(t: Table, w: int, h: int, nets: int)
    requires Complete(t, w, h, nets) && forall s :: s in t ==> t[s] == Free
    ensures Partition(t, [], {}, w, h, nets)
  {
  }

  /** Installing a circuit on free ports and counting the routers it passes keeps the books. */
  lemma CommitKeepsBooks(t: Table, t': Table, live: seq<Circuit>, faults: set<Slot>, c: Circuit, w: int, h: int,
                         nets: int,
                         u: seq<nat>, u': seq<nat>)
    requires Partition(t, live, faults, w, h, nets) && Counted(u, live)
    requires WellFormed(c, w, h, nets) && AllFree(t, c) && Installed(t, t', c)
    requires c.net < |u| && u' == u[c.net := u[c.net] + Hops(c)]
    ensures Partition(t', live + [c], faults, w, h, nets) && Counted(u', live + [c])
  {
    InstallKeepsPartition(t, t', live, faults, c, w, h, nets);
    assert (live + [c])[..|live|] == live;
  }

  /** Clearing a live circuit and uncounting its routers keeps the books. */
  lemma ReleaseKeepsBooks(t: Table, t': Table, live: seq<Circuit>, faults: set<Slot>, i: int, w: int, h: int, nets: int,
                          u: seq<int>, u': seq<int>)
    requires Partition(t, live, faults, w, h, nets) && Counted(u, live)
    requires 0 <= i < |live| && Cleared(t, t', live[i])
    requires live[i].net < |u| && u' == u[live[i].net := u[live[i].net] - Hops(live[i])]
    ensures forall n :: 0 <= n < |u'| ==> u'[n] >= 0
    ensures Partition(t', RemoveAt(live, i), faults, w, h, nets) && Counted(u', RemoveAt(live, i))
  {
    ClearKeepsPartition(t, t', live, faults, i, w, h, nets);
    forall n: nat {
      LoadWithout(live, i, n);
    }
  }

  lemma FreeIsDisjoint(t: Table, d: Circuit, c: Circuit)
    requires Carries(t, d) && AllFree(t, c)
    ensures Disjoint(d, c)
  {
  }

  lemma KeepsCarrying(t: Table, t': Table, d: Circuit, c: Circuit)
    requires Carries(t, d) && Disjoint(d, c)
    requires t'.Keys == t.Keys && forall s :: s in t && !Owns(c, s) ==> t'[s] == t[s]
    ensures Carries(t', d)
  {
    forall j | 0 <= j < |d.route| ensures t'[InSlot(d, j)] == t[InSlot(d, j)] {
      assert Owns(d, InSlot(d, j));
    }
    if d.route != [] && d.outport == LocalOut {
      assert Owns(d, OutSlot(d));
    }
  }

  lemma ClearKeepsPartition(t: Table, t': Table, live: seq<Circuit>, faults: set<Slot>, i: int, w: int, h: int,
                            nets: int)
    requires Partition(t, live, faults, w, h, nets)
    requires 0 <= i < |live| && Cleared(t, t', live[i])
    ensures Partition(t', RemoveAt(live, i), faults, w, h, nets)
  {
    var c := live[i];
    var rest := RemoveAt(live, i);
    OthersAreDisjoint(t, live, faults, i, w, h, nets);
    forall j | 0 <= j < |rest| ensures WellFormed(rest[j], w, h, nets) && Carries(t', rest[j]) {
      assert rest[j] == live[Index(i, j)];
      KeepsCarrying(t, t', rest[j], c);
    }
    forall s: Slot {
      OccupiedWithout(live, i, s);
    }
  }

  lemma OccupiedWithout(live: seq<Circuit>, i: int, s: Slot)
    requires 0 <= i < |live|
    requires forall j :: 0 <= j < |live| - 1 ==> Disjoint(RemoveAt(live, i)[j], live[i])
    ensures Occupied(RemoveAt(live, i), s) <==> Occupied(live, s) && !Owns(live[i], s)
  {
    var rest := RemoveAt(live, i);
    assert forall j :: 0 <= j < |rest| ==> rest[j] == live[Index(i, j)];
    if Occupied(live, s) && !Owns(live[i], s) {
      var j :| 0 <= j < |live| && Owns(live[j], s);
      assert rest[if j < i then j else j - 1] == live[j];
    }
    if Occupied(rest, s) {
      var j :| 0 <= j < |rest| && Owns(rest[j], s);
      assert Owns(live[Index(i, j)], s);
      assert Disjoint(rest[j], live[i]);
    }
  }

  function Index(i: int, j: int): int {
    if j < i then j else j + 1
  }

  lemma OthersAreDisjoint(t: Table, live: seq<Circuit>, faults: set<Slot>, i: int, w: int, h: int, nets: int)
    requires Partition(t, live, faults, w, h, nets) && 0 <= i < |live|
    ensures forall j :: 0 <= j < |live| - 1 ==> Disjoint(RemoveAt(live, i)[j], live[i])
    ensures forall a, b :: 0 <= a < b < |live| - 1 ==> Disjoint(RemoveAt(live, i)[a], RemoveAt(live, i)[b])
  {
    var rest := RemoveAt(live, i);
    forall j | 0 <= j < |rest| ensures Disjoint(rest[j], live[i]) {
      assert rest[j] == live[Index(i, j)];
    }
    forall a, b | 0 <= a < b < |rest| ensures Disjoint(rest[a], rest[b]) {
      assert rest[a] == live[Index(i, a)] && rest[b] == live[Index(i, b)];
    }
  }

  /** The table with the given ports blocked. */
  ghost function Faulted(t: Table, slots: set<Slot>): Table {
    map x | x in t :: if x in slots then Blocked else t[x]
  }

  lemma FaultKeepsPartition(t: Table, live: seq<Circuit>, faults: set<Slot>, slots: set<Slot>, w: int, h: int,
                            nets: int)
    requires Partition(t, live, faults, w, h, nets)
    requires forall s :: s in slots ==> InGrid(s.at, w, h) && s.net < nets
    ensures Partition(Faulted(t, slots), live, faults + slots, w, h, nets)
      <==> forall s :: s in slots ==> !Occupied(live, s)
  {
    var t' := Faulted(t, slots);
    assert forall s :: s in slots ==> s in t;
    if forall s :: s in slots ==> !Occupied(live, s) {
      forall i | 0 <= i < |live| ensures Carries(t', live[i]) {
        forall s | s in slots ensures !Owns(live[i], s) { }
        forall j | 0 <= j < |live[i].route| ensures InSlot(live[i], j) !in slots { }
      }
    } else {
      var s :| s in slots && Occupied(live, s);
      assert s in faults + slots;
    }
  }

  /** The set of live circuits, in whatever order they were opened, and the faults determine the whole table. */
  lemma PartitionDeterminesTable(t: Table, t': Table, live: seq<Circuit>, live': seq<Circuit>, faults: set<Slot>,
                                 w: int, h: int, nets: int)
    requires Partition(t, live, faults, w, h, nets) && Partition(t', live', faults, w, h, nets)
    requires multiset(live) == multiset(live')
    ensures t == t'
    ensures forall n :: Load(live, n) == Load(live', n)
  {
    forall c ensures c in live <==> c in live' {
      assert c in live <==> c in multiset(live);
      assert c in live' <==> c in multiset(live');
    }
    forall s ensures s in t <==> s in t' {
      assert InGrid(s.at, w, h) && s.net < nets <==> s in t;
    }
    forall s | s in t ensures t[s] == t'[s] {
      if Occupied(live, s) {
        SameEntry(t, t', live, live', s);
      } else if Occupied(live', s) {
        SameEntry(t', t, live', live, s);
      }
    }
    forall n: nat {
      LoadOfMultiset(live, live', n);
    }
  }

  lemma SameEntry(t: Table, t': Table, live: seq<Circuit>, live': seq<Circuit>, s: Slot)
    requires forall i :: 0 <= i < |live| ==> Carries(t, live[i])
    requires forall i :: 0 <= i < |live'| ==> Carries(t', live'[i])
    requires forall c :: c in live ==> c in live'
    requires Occupied(live, s)
    ensures s in t && s in t' && t[s] == t'[s]
  {
    var i :| 0 <= i < |live| && Owns(live[i], s);
    assert live[i] in live';
    var j :| 0 <= j < |live'| && live'[j] == live[i];
    assert Carries(t, live[i]) && Carries(t', live'[j]);
  }

  lemma {:induction false} LoadOfMultiset(live: seq<Circuit>, live': seq<Circuit>, n: nat)
    requires multiset(live) == multiset(live')
    ensures Load(live, n) == Load(live', n)
  {
    assert |multiset(live)| == |live| && |multiset(live')| == |live'|;
    if live != [] {
      var last := live[|live| - 1];
      assert last in multiset(live');
      var i :| 0 <= i < |live'| && live'[i] == last;
      assert live == live[..|live| - 1] + [last];
      assert live' == live'[..i] + [last] + live'[i + 1..];
      assert multiset(live[..|live| - 1]) == multiset(live) - multiset{last};
      assert multiset(RemoveAt(live', i)) == multiset(live') - multiset{last};
      LoadOfMultiset(live[..|live| - 1], RemoveAt(live', i), n);
      LoadWithout(live', i, n);
    }
  }

  /** A local input port belongs to at most one live circuit, so source and subnet name the circuit. */
  lemma SourceNamesCircuit(t: Table, live: seq<Circuit>, faults: set<Slot>, i: int, j: int, w: int, h: int, nets: int)
    requires Partition(t, live, faults, w, h, nets)
    requires 0 <= i < |live| && 0 <= j < |live|
    requires live[i].inport == live[j].inport && live[i].net == live[j].net && live[i].route[0] == live[j].route[0]
    ensures i == j
  {
    var s := InSlot(live[i], 0);
    assert Owns(live[i], s) && s == InSlot(live[j], 0) && Owns(live[j], s);
  }

  /** A local output port belongs to at most one live circuit, so target and subnet name the circuit as well. */
  lemma TargetNamesCircuit(t: Table, live: seq<Circuit>, faults: set<Slot>, i: int, j: int, w: int, h: int, nets: int)
    requires Partition(t, live, faults, w, h, nets)
    requires 0 <= i < |live| && 0 <= j < |live|
    requires live[i].outport == live[j].outport == LocalOut && live[i].net == live[j].net
    requires live[i].route != [] && live[j].route != [] && Last(live[i]) == Last(live[j])
    ensures i == j
  {
    var s := OutSlot(live[i]);
    assert Owns(live[i], s) && s == OutSlot(live[j]) && Owns(live[j], s);
  }
}
