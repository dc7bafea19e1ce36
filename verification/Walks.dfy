/**
 * The walk by which a retrace turns the list of popped routers into table entries, whatever has happened to the ports.
 */
module Walks {
  import opened Grid
  import opened Search
  import opened Circuits

  /** One router the walk passes, with the ports by which the circuit is to enter and leave it. */
  datatype Hop = Hop(at: Router, inport: Port, outport: Port)

  /**
   * What a retrace works from: the popped routers and its two end ports. `links` are the crossings of a global search.
   */
  datatype Way = Way(isGlobal: bool, links: Links, popped: seq<Router>, net: nat, inport: Port, outport: Port, w: int,
                     h: int)

  /** The hops that the walk finds usable when the port table is t. */
  ghost function Open(way: Way, t: Table): Links {
    if way.isGlobal then way.links else LocalLinks(t, way.net, way.w, way.h)
  }

  /** The first listed router from position k on with a usable hop into `cur`, or position i, which is not tested. */
  ghost function Previous(links: Links, popped: seq<Router>, cur: Router, k: int, i: int): (q: int)
    requires 0 <= k <= i < |popped|
    ensures k <= q <= i
    ensures q < i ==> (popped[q], cur) in links
    ensures forall m :: k <= m < q ==> (popped[m], cur) !in links
    decreases i - k
  {
    if k == i || (popped[k], cur) in links then k else Previous(links, popped, cur, k + 1, i)
  }

  /** The port table once the walk has passed a router: a global search leaves it alone. */
  ghost function After(way: Way, t: Table, hop: Hop): Table {
    if way.isGlobal then t else t[Slot(hop.at, way.net, hop.inport) := To(hop.outport)]
  }

  /** The routers passed from `cur` on, which lies behind the first i + 1 listed ones and is to be left at `outport`. */
  ghost function Walk(way: Way, t: Table, i: int, cur: Router, outport: Port): (hops: seq<Hop>)
    requires -1 <= i < |way.popped|
    ensures hops != [] && hops[0].at == cur
    decreases i + 1
  {
    if i < 0 then [Hop(cur, way.inport, outport)]
    else
      var k := Previous(Open(way, t), way.popped, cur, 0, i);
      var hop := Hop(cur, Facing(cur, way.popped[k]), outport);
      [hop] + Walk(way, After(way, t, hop), k - 1, way.popped[k], Opposite(hop.inport))
  }

  /** The router passed next is the one that is found first. */
  lemma SecondRouter(way: Way, t: Table, i: int, cur: Router, outport: Port)
    requires 0 <= i < |way.popped|
    ensures |Walk(way, t, i, cur, outport)| > 1
    ensures Walk(way, t, i, cur, outport)[1].at == way.popped[Previous(Open(way, t), way.popped, cur, 0, i)]
  {
    var k := Previous(Open(way, t), way.popped, cur, 0, i);
    var hop := Hop(cur, Facing(cur, way.popped[k]), outport);
    var rest := Walk(way, After(way, t, hop), k - 1, way.popped[k], Opposite(hop.inport));
    assert Walk(way, t, i, cur, outport) == [hop] + rest;
    assert ([hop] + rest)[1] == rest[0];
  }

  /** The target's local output is marked as taken before the walk. */
  ghost function Marked(way: Way, t: Table): Table
    requires way.popped != []
  {
    if way.isGlobal || way.outport != LocalOut then t
    else t[Slot(way.popped[|way.popped| - 1], way.net, LocalOut) := Blocked]
  }

  /** All a retrace passes.  A path of a single cluster is not recorded. */
  ghost function Marks(way: Way, t: Table): seq<Hop>
    requires way.popped != []
  {
    var n := |way.popped| - 1;
    if n == 0 && way.isGlobal then []
    else Walk(way, Marked(way, t), if n == 0 then -1 else n, way.popped[n], way.outport)
  }

  ghost function Written(t: Table, net: nat, hops: seq<Hop>): Table {
    if hops == [] then t
    else
      var n := |hops| - 1;
      Written(t, net, hops[..n])[Slot(hops[n].at, net, hops[n].inport) := To(hops[n].outport)]
  }

  predicate Passes(hop: Hop) {
    hop.inport != LocalIn && hop.outport != LocalOut
  }

  /** How many of the routers neither take the circuit from nor hand it to a local port. */
  function Passed(hops: seq<Hop>): nat {
    if hops == [] then 0 else Passed(hops[..|hops| - 1]) + if Passes(hops[|hops| - 1]) then 1 else 0
  }

  lemma WalkOn(way: Way, t: Table, i: int, cur: Router, outport: Port, k: int)
    requires 0 <= i < |way.popped| && k == Previous(Open(way, t), way.popped, cur, 0, i)
    ensures var hop := Hop(cur, Facing(cur, way.popped[k]), outport);
      Walk(way, t, i, cur, outport) == [hop] + Walk(way, After(way, t, hop), k - 1, way.popped[k], Opposite(hop.inport))
  {
  }

  lemma WalkEnds(way: Way, t: Table, cur: Router, outport: Port)
    ensures Walk(way, t, -1, cur, outport) == [Hop(cur, way.inport, outport)]
  {
  }

  lemma FirstMark(way: Way, t: Table)
    requires way.popped != []
    ensures Passed([]) == 0
    ensures var n := |way.popped| - 1;
      if n > 0 then Marks(way, t) == Walk(way, Marked(way, t), n, way.popped[n], way.outport)
      else Marks(way, t) == if way.isGlobal then [] else [Hop(way.popped[0], way.inport, way.outport)]
  {
  }

  lemma OneMorePassed(done: seq<Hop>, hop: Hop)
    ensures Passed(done + [hop]) == Passed(done) + if Passes(hop) then 1 else 0
    ensures IsSide(hop.inport) ==> (Passes(hop) <==> hop.outport != LocalOut)
  {
    assert (done + [hop])[..|done|] == done;
  }

  /** A circuit's own routers from position j back to its source. */
  ghost function Entries(c: Circuit, j: int): (hops: seq<Hop>)
    requires 0 <= j < |c.route|
    ensures |hops| == j + 1
  {
    [OwnHop(c, j)] + if j == 0 then [] else Entries(c, j - 1)
  }

  ghost function OwnHop(c: Circuit, j: int): Hop
    requires 0 <= j < |c.route|
  {
    Hop(c.route[j], InPort(c, j), OutPort(c, j))
  }

  /** All of them, from the target back. */
  ghost function AllEntries(c: Circuit): (hops: seq<Hop>)
    requires c.route != []
    ensures |hops| == |c.route|
  {
    Entries(c, |c.route| - 1)
  }

  lemma {:induction false} EntryAt(c: Circuit, j: int, i: int)
    requires 0 <= i <= j < |c.route|
    ensures Entries(c, j)[i] == OwnHop(c, j - i)
  {
    if i > 0 {
      EntryAt(c, j - 1, i - 1);
    }
  }

  /** The entries up to and with the one of position j. */
  lemma EntriesUpTo(c: Circuit, j: int)
    requires 0 <= j < |c.route|
    ensures AllEntries(c)[..|c.route| - j] == AllEntries(c)[..|c.route| - j - 1] + [OwnHop(c, j)]
  {
    hide Entries, OwnHop;
    EntryAt(c, |c.route| - 1, |c.route| - 1 - j);
  }

  // ----- writing a circuit's own entries

  lemma {:induction false} EntriesAreWritten(t: Table, t1: Table, c: Circuit, j: int)
    requires c.route != [] && Distinct(c.route) && c.inport != LocalOut && 0 <= j <= |c.route|
    requires forall i {:trigger InSlot(c, i)} :: 0 <= i < |c.route| ==> InSlot(c, i) in t
    requires InstalledFrom(t, t1, c, |c.route|)
    ensures InstalledFrom(t, Written(t1, c.net, AllEntries(c)[..|c.route| - j]), c, j)
    decreases |c.route| - j
  {
    hide InstalledFrom, Distinct, AllEntries, InPort, OutPort;
    if j < |c.route| {
      EntriesAreWritten(t, t1, c, j + 1);
      EntriesUpTo(c, j);
      var before := AllEntries(c)[..|c.route| - j - 1];
      assert (before + [OwnHop(c, j)])[..|before|] == before;
      InstallStep(t, Written(t1, c.net, before), c, j);
    }
  }

  /** Marking the target and writing the circuit's own entries installs the circuit. */
  lemma EntriesInstall(way: Way, t: Table, c: Circuit)
    requires c.route != [] && Distinct(c.route) && c.inport != LocalOut && way.popped != [] && !way.isGlobal
    requires way.popped[|way.popped| - 1] == Last(c) && way.net == c.net && way.outport == c.outport
    requires forall j {:trigger InSlot(c, j)} :: 0 <= j < |c.route| ==> InSlot(c, j) in t
    requires c.outport == LocalOut ==> OutSlot(c) in t
    ensures Installed(t, Written(Marked(way, t), c.net, AllEntries(c)), c)
  {
    hide InstalledFrom, Installed, Distinct, AllEntries;
    StartInstall(t, c);
    EntriesAreWritten(t, Marked(way, t), c, 0);
    assert AllEntries(c)[..|c.route|] == AllEntries(c);
    InstalledFromStart(t, Written(Marked(way, t), c.net, AllEntries(c)), c);
  }

  lemma {:induction false} EntriesPassed(c: Circuit, j: int)
    requires c.route != [] && 0 <= j <= |c.route|
    ensures Passed(AllEntries(c)[..|c.route| - j]) ==
      |c.route| - j - (if j < |c.route| && c.outport == LocalOut then 1 else 0)
        - (if j == 0 && c.inport == LocalIn && (|c.route| > 1 || c.outport != LocalOut) then 1 else 0)
    decreases |c.route| - j
  {
    hide AllEntries;
    if j < |c.route| {
      EntriesPassed(c, j + 1);
      EntriesUpTo(c, j);
      var before := AllEntries(c)[..|c.route| - j - 1];
      assert (before + [OwnHop(c, j)])[..|before|] == before;
    }
  }

  /** A retrace that writes a circuit's own entries counts the routers the circuit passes. */
  lemma EntriesCount(c: Circuit)
    requires c.route != []
    ensures Passed(AllEntries(c)) == Hops(c)
  {
    EntriesPassed(c, 0);
    assert AllEntries(c)[..|c.route|] == AllEntries(c);
  }

  // ----- a walk gone astray

  /**
   * Where the only hop of a two-router route is no longer free when it is retraced, the walk stops at the target
   * itself, takes its south port, and then writes the lost port after all: what enters there leaves to the north and
   * never arrives.
   */
  lemma LostHopGoesAstray(t: Table, a: Router, net: nat, w: int, h: int)
    requires Slot(Step(a, East), net, West) in t && t[Slot(Step(a, East), net, West)] != Free
    ensures var b := Step(a, East);
      && Marks(Way(false, {}, [a, b], net, LocalIn, LocalOut, w, h), t) ==
        [Hop(b, South, LocalOut), Hop(b, West, North), Hop(a, LocalIn, East)]
      && AllEntries(Circuit(net, [a, b], LocalIn, LocalOut)) == [Hop(b, West, LocalOut), Hop(a, LocalIn, East)]
  {
    var b := Step(a, East);
    var way := Way(false, {}, [a, b], net, LocalIn, LocalOut, w, h);
    var t1 := Marked(way, t);
    assert (a, b) !in Open(way, t1);
    var t2 := After(way, t1, Hop(b, South, LocalOut));
    var t3 := After(way, t2, Hop(b, West, North));
    assert Walk(way, t3, -1, a, East) == [Hop(a, LocalIn, East)];
    assert Walk(way, t2, 0, b, North) == [Hop(b, West, North)] + Walk(way, t3, -1, a, East);
    assert Walk(way, t1, 1, b, LocalOut) == [Hop(b, South, LocalOut)] + Walk(way, t2, 0, b, North);
    var c := Circuit(net, [a, b], LocalIn, LocalOut);
    assert Entries(c, 0) == [Hop(a, LocalIn, East)];
  }
}
