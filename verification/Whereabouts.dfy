/** Where the processors believe a task to run that moves from host to host. */
module Whereabouts {

  /**
   * One task over its life: the processors that hosted it, in order, and for every processor that has a location entry
   * for it the host the entry names, as an index into that list.
   */
  datatype World = World(hosts: seq<nat>, entry: map<nat, nat>)

  function Current(w: World): nat
    requires w.hosts != []
  {
    w.hosts[|w.hosts| - 1]
  }

  /** The processor that x would send a request for the task to, or -1. */
  function LocationAt(w: World, x: nat): (location: int)
    ensures location >= -1
  {
    if x in w.entry && w.entry[x] < |w.hosts| then w.hosts[w.entry[x]] else -1
  }

  /** The task moves, and its old host records where to. */
  function Moved(w: World, to: nat): World
    requires w.hosts != []
  {
    World(w.hosts + [to], w.entry[Current(w) := |w.hosts|])
  }

  /**
   * Processor y, which has no entry for the task, takes over one that another processor had, perhaps long ago: the
   * locations travel with whatever task moves to y.
   */
  function Learned(w: World, y: nat, k: nat): World {
    if y in w.entry then w else w.(entry := w.entry[y := k])
  }

  /** The task is released on its first host, and that processor and some others are told so. */
  ghost predicate IsReleased(w: World) {
    |w.hosts| == 1 && w.hosts[0] in w.entry && forall x :: x in w.entry ==> w.entry[x] == 0
  }

  /** An entry names a host, and the entry of a former host names a host from after the task last left it. */
  ghost predicate IsSound(w: World) {
    && w.hosts != []
    && (forall x :: x in w.entry ==> w.entry[x] < |w.hosts|)
    && (forall i :: 0 <= i < |w.hosts| && w.hosts[i] != Current(w) ==> w.hosts[i] in w.entry && i < w.entry[w.hosts[i]])
  }

  lemma ReleasedIsSound(w: World)
    requires IsReleased(w)
    ensures IsSound(w)
  {
  }

  lemma MoveKeepsSound(w: World, to: nat)
    requires IsSound(w) && to != Current(w)
    ensures IsSound(Moved(w, to)) && Current(Moved(w, to)) == to
  {
  }

  lemma LearningKeepsSound(w: World, y: nat, k: nat)
    requires IsSound(w) && k < |w.hosts|
    ensures IsSound(Learned(w, y, k)) && Current(Learned(w, y, k)) == Current(w)
  {
  }

  /** A processor that is told to send to itself is the current host. */
  lemma OwnLocation(w: World, x: nat)
    requires IsSound(w) && LocationAt(w, x) == x
    ensures x == Current(w)
  {
    var k := w.entry[x];
    assert w.hosts[k] == x;
  }

  /** A former host always knows a host to pass a request on to, from after the task last left it, and never itself. */
  lemma FormerHostKnows(w: World, y: nat)
    requires IsSound(w) && y in w.hosts && y != Current(w)
    ensures LocationAt(w, y) in w.hosts && LocationAt(w, y) != y
    ensures y in w.entry && forall i :: 0 <= i < |w.hosts| && w.hosts[i] == y ==> i < w.entry[y]
  {
    var i :| 0 <= i < |w.hosts| && w.hosts[i] == y;
    if LocationAt(w, y) == y { OwnLocation(w, y); }
  }

  /** The processors a request sent to the i-th host visits from then on, if the task stays where it is. */
  ghost function Journey(w: World, i: nat): (visited: seq<nat>)
    requires IsSound(w) && i < |w.hosts|
    ensures visited != [] && visited[0] == w.hosts[i] && visited[|visited| - 1] == Current(w)
    ensures forall k :: 0 <= k < |visited| - 1 ==>
      visited[k] != Current(w) && LocationAt(w, visited[k]) == visited[k + 1]
    ensures |visited| <= |w.hosts| - i
    decreases |w.hosts| - i
  {
    if w.hosts[i] == Current(w) then [w.hosts[i]] else [w.hosts[i]] + Journey(w, w.entry[w.hosts[i]])
  }

  /** A chain of location entries from processor x to the current host, no longer than the task has hosts. */
  ghost predicate LeadsToHost(w: World, x: nat, visited: seq<nat>)
    requires w.hosts != []
  {
    && visited != [] && visited[0] == LocationAt(w, x) && visited[|visited| - 1] == Current(w)
    && |visited| <= |w.hosts|
    && forall k :: 0 <= k < |visited| - 1 ==> LocationAt(w, visited[k]) == visited[k + 1]
  }

  lemma EntriesLeadToHost(w: World, x: nat)
    requires IsSound(w) && x in w.entry
    ensures exists visited :: LeadsToHost(w, x, visited)
  {
    assert LeadsToHost(w, x, Journey(w, w.entry[x]));
  }
}
