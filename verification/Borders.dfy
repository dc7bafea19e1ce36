/**
 * Where a path crosses from one cluster into the next: the border words and the positions both clusters pick from them.
 */
module Borders {
  import opened Grid
  import opened Circuits
  import opened Bits
  import opened NocManager

  // ----- what one cluster says about its own borders

  predicate HasTable(csInport: array4<Entry>, s: nat) {
    csInport.Length0 > 0 && csInport.Length1 > 0 && csInport.Length3 == 6 && s < csInport.Length2
  }

  predicate IsFree(csInport: array4<Entry>, r: Router, s: nat, p: Port)
    requires HasTable(csInport, s)
    reads csInport
  {
    InGrid(r, csInport.Length0, csInport.Length1) && csInport[r.x, r.y, s, Code(p)] == Free
  }

  /** A path can enter through the border port and go on to a neighbour. */
  predicate IsPEPropagable(csInport: array4<Entry>, r: Router, border: Port, s: nat)
    requires HasTable(csInport, s)
    reads csInport
  {
    IsFree(csInport, r, s, border)
    && (IsFree(csInport, Step(r, West), s, East) || IsFree(csInport, Step(r, East), s, West)
        || IsFree(csInport, Step(r, South), s, North) || IsFree(csInport, Step(r, North), s, South))
  }

  /** A path can come in from a neighbour. */
  predicate IsPEReachable(csInport: array4<Entry>, r: Router, s: nat)
    requires HasTable(csInport, s)
    reads csInport
  {
    (r.x > 0 && IsFree(csInport, r, s, West)) || (r.x < csInport.Length0 - 1 && IsFree(csInport, r, s, East))
    || (r.y > 0 && IsFree(csInport, r, s, South)) || (r.y < csInport.Length1 - 1 && IsFree(csInport, r, s, North))
  }

  /** The border port is free and a hop leads on from its router. */
  ghost predicate CanEnter(t: Table, r: Router, border: Port, s: nat, w: int, h: int) {
    && Slot(r, s, border) in t && t[Slot(r, s, border)] == Free
    && exists v :: (r, v) in LocalLinks(t, s, w, h)
  }

  /** A hop leads to the router. */
  ghost predicate CanLeave(t: Table, r: Router, s: nat, w: int, h: int) {
    exists u :: (u, r) in LocalLinks(t, s, w, h)
  }

  /** A hop is usable in the table exactly when the port it arrives by is free. */
  lemma HopTested(csInport: array4<Entry>, r: Router, p: Port, s: nat)
    requires HasTable(csInport, s) && IsSide(p) && InGrid(r, csInport.Length0, csInport.Length1)
    ensures var links := LocalLinks(PortTable(csInport), s, csInport.Length0, csInport.Length1);
      && ((r, Step(r, p)) in links <==> IsFree(csInport, Step(r, p), s, Opposite(p)))
      && ((Step(r, p), r) in links <==>
          InGrid(Step(r, p), csInport.Length0, csInport.Length1) && IsFree(csInport, r, s, p))
  {
    FacingIsMutual(r, Step(r, p), p);
  }

  /** The four tests for a way on find one exactly when a hop leads on. */
  lemma TestsFindTheWayOn(csInport: array4<Entry>, r: Router, border: Port, s: nat)
    requires HasTable(csInport, s) && IsSide(border) && InGrid(r, csInport.Length0, csInport.Length1)
    ensures IsPEPropagable(csInport, r, border, s) <==>
      CanEnter(PortTable(csInport), r, border, s, csInport.Length0, csInport.Length1)
  {
    hide LocalLinks;
    var links := LocalLinks(PortTable(csInport), s, csInport.Length0, csInport.Length1);
    HopTested(csInport, r, East, s);
    HopTested(csInport, r, West, s);
    HopTested(csInport, r, North, s);
    HopTested(csInport, r, South, s);
    if v :| (r, v) in links {
      assert v == Step(r, Facing(r, v));
    }
    assert Slot(r, s, border) in PortTable(csInport);
  }

  /** The four tests for a way in find one exactly when a hop leads to the router. */
  lemma TestsFindTheWayIn(csInport: array4<Entry>, r: Router, s: nat)
    requires HasTable(csInport, s) && InGrid(r, csInport.Length0, csInport.Length1)
    ensures IsPEReachable(csInport, r, s) <==>
      CanLeave(PortTable(csInport), r, s, csInport.Length0, csInport.Length1)
  {
    hide LocalLinks;
    var links := LocalLinks(PortTable(csInport), s, csInport.Length0, csInport.Length1);
    HopTested(csInport, r, East, s);
    HopTested(csInport, r, West, s);
    HopTested(csInport, r, North, s);
    HopTested(csInport, r, South, s);
    if u :| (u, r) in links {
      assert u == Step(r, Facing(r, u));
    }
  }

  predicate IsVertical(border: Port) {
    border == East || border == West
  }

  /** How many routers a border has. */
  function BorderLength(border: Port, w: nat, h: nat): nat {
    if IsVertical(border) then h else w
  }

  /** The router at a coordinate of a border of the cluster whose corner is `corner`. */
  function BorderRouter(corner: Router, border: Port, w: int, h: int, at: int): Router
    requires IsSide(border)
  {
    match border
    case East => Router(corner.x + w - 1, at)
    case West => Router(corner.x, at)
    case North => Router(at, corner.y + h - 1)
    case South => Router(at, corner.y)
  }

  /** The router at position i of a border, which counts from the largest coordinate down. */
  function At(csInport: array4<Entry>, border: Port, i: int): Router
    requires IsSide(border)
  {
    BorderRouter(Router(0, 0), border, csInport.Length0, csInport.Length1,
                 BorderLength(border, csInport.Length0, csInport.Length1) - 1 - i)
  }

  /** Whether the port table lets a path enter at position i of a border, or leave there. */
  ghost predicate EntersAt(csInport: array4<Entry>, border: Port, s: nat, i: int)
    requires HasTable(csInport, s) && IsSide(border)
    reads csInport
  {
    CanEnter(PortTable(csInport), At(csInport, border, i), border, s, csInport.Length0, csInport.Length1)
  }

  ghost predicate LeavesAt(csInport: array4<Entry>, border: Port, s: nat, i: int)
    requires HasTable(csInport, s) && IsSide(border)
    reads csInport
  {
    CanLeave(PortTable(csInport), At(csInport, border, i), s, csInport.Length0, csInport.Length1)
  }

  /** A pair of border words says of every position what the port table does: whether it is blocked. */
  ghost predicate IsBorderStatus(csInport: array4<Entry>, border: Port, s: nat, input: nat, output: nat, done: nat)
    requires HasTable(csInport, s) && IsSide(border)
    reads csInport
  {
    forall i: nat ::
      && (Bit(input, i) <==> i < done && !EntersAt(csInport, border, s, i))
      && (Bit(output, i) <==> i < done && !LeavesAt(csInport, border, s, i))
  }

  method BuildSide(csInport: array4<Entry>, border: Port, s: nat) returns (input: nat, output: nat)
    requires HasTable(csInport, s) && IsSide(border)
    ensures var n := BorderLength(border, csInport.Length0, csInport.Length1);
      && IsBorderStatus(csInport, border, s, input, output, n)
      && input <= AllOnes(n) && output <= AllOnes(n)
  {
    hide CanEnter, CanLeave, IsPEPropagable, IsPEReachable, PortTable, IsBorderStatus, HasBitOf, Or, AllOnes, Pow2;
    var n := BorderLength(border, csInport.Length0, csInport.Length1);
    input, output := 0, 0;
    NoneBlocked(csInport, border, s);
    for i := 0 to n
      invariant IsBorderStatus(csInport, border, s, input, output, i)
      invariant input <= AllOnes(n) && output <= AllOnes(n)
    {
      var r := At(csInport, border, i);
      var blockedIn, blockedOut := !IsPEPropagable(csInport, r, border, s), !IsPEReachable(csInport, r, s);
      TestsFindTheWayOn(csInport, r, border, s);
      TestsFindTheWayIn(csInport, r, s);
      BitAdded(input, i, n, blockedIn);
      BitAdded(output, i, n, blockedOut);
      var input', output' := Or(input, if blockedIn then Pow2(i) else 0), Or(output, if blockedOut then Pow2(i) else 0);
      OneMore(csInport, border, s, input, output, i, input', output');
      input, output := input', output';
    }
  }

  lemma NoneBlocked(csInport: array4<Entry>, border: Port, s: nat)
    requires HasTable(csInport, s) && IsSide(border)
    ensures IsBorderStatus(csInport, border, s, 0, 0, 0)
  {
    hide CanEnter, CanLeave, PortTable;
    forall i: nat ensures !Bit(0, i) { ZeroBits(i); }
  }

  /** The words grow by the bit of the next position. */
  lemma OneMore(csInport: array4<Entry>, border: Port, s: nat, input: nat, output: nat, i: nat,
                input': nat, output': nat)
    requires HasTable(csInport, s) && IsSide(border) && IsBorderStatus(csInport, border, s, input, output, i)
    requires HasBitOf(input', input, i, !EntersAt(csInport, border, s, i))
    requires HasBitOf(output', output, i, !LeavesAt(csInport, border, s, i))
    ensures IsBorderStatus(csInport, border, s, input', output', i + 1)
  {
    hide EntersAt, LeavesAt, Bit;
  }

  ghost predicate HasBitOf(word': nat, word: nat, i: nat, taken: bool) {
    forall k: nat :: Bit(word', k) <==> Bit(word, k) || (taken && k == i)
  }

  lemma BitAdded(word: nat, i: nat, n: nat, taken: bool)
    requires i < n && word <= AllOnes(n)
    ensures var word' := Or(word, if taken then Pow2(i) else 0); HasBitOf(word', word, i, taken) && word' <= AllOnes(n)
  {
    var mask := if taken then Pow2(i) else 0;
    Pow2IsBounded(i, n);
    OrIsBounded(word, mask, n);
    forall k: nat ensures Bit(Or(word, mask), k) <==> Bit(word, k) || (taken && k == i) {
      BitOfOr(word, mask, k);
      BitOfPow2(i, k);
      ZeroBits(k);
    }
  }

  /** The words of one cluster describe its own port table. */
  ghost predicate DescribesBorder(ctl: Controller, csInport: array4<Entry>, nc: Router, s: nat, border: Port)
    requires ctl.Layout() && s < ctl.csNets && IsSide(border) && InGrid(nc, ctl.xClusterNum, ctl.yClusterNum)
    reads ctl, ctl.borderInput, ctl.borderOutput, csInport
  {
    && HasTable(csInport, s) && csInport.Length0 == ctl.xCluster && csInport.Length1 == ctl.yCluster
    && var (input, output) := (ctl.borderInput[nc.x, nc.y, s, Code(border)],
                               ctl.borderOutput[nc.x, nc.y, s, Code(border)]);
    && var n := BorderLength(border, ctl.xCluster, ctl.yCluster);
    && IsBorderStatus(csInport, border, s, input, output, n) && input <= AllOnes(n) && output <= AllOnes(n)
  }

  /** Only the words of cluster nc differ from the given ones. */
  ghost predicate OthersKept(ctl: Controller, nc: Router, input: Words, output: Words)
    requires ctl.Layout()
    reads ctl, ctl.borderInput, ctl.borderOutput
  {
    forall c: Router, s: nat, k: nat :: IsWord(ctl, c, s, k) && c != nc ==>
      ctl.borderInput[c.x, c.y, s, k] == input(c, s, k) && ctl.borderOutput[c.x, c.y, s, k] == output(c, s, k)
  }

  type Words = (Router, nat, nat) -> nat

  /** Brings the words of the own cluster, at nc, up to date, for any words its neighbours may have. */
  method BuildBorderStatus(ctl: Controller, nc: Router, ghost input: Words, ghost output: Words)
    requires ctl.Layout() && InGrid(nc, ctl.xClusterNum, ctl.yClusterNum) && ctl.xCluster > 0 && ctl.yCluster > 0
    requires ctl.borderInput != ctl.borderOutput && OthersKept(ctl, nc, input, output)
    modifies ctl.borderInput, ctl.borderOutput
    ensures ctl.Layout() && OthersKept(ctl, nc, input, output)
    ensures forall s: nat, border: Port :: s < ctl.csNets && IsSide(border) ==>
      DescribesBorder(ctl, ctl.csInport, nc, s, border)
  {
    for s := 0 to ctl.csNets
      invariant OthersKept(ctl, nc, input, output)
      invariant forall t: nat, k :: t < s && 0 <= k < 4 ==> DescribesBorder(ctl, ctl.csInport, nc, t, Side(k))
    {
      for n := 0 to 4
        invariant OthersKept(ctl, nc, input, output)
        invariant forall t: nat, k :: 0 <= k < 4 && (t < s || (t == s && k < n)) ==>
          DescribesBorder(ctl, ctl.csInport, nc, t, Side(k))
      {
        var inWord, outWord := BuildSide(ctl.csInport, Side(n), s);
        label Built:
        ctl.borderInput[nc.x, nc.y, s, n] := inWord;
        ctl.borderOutput[nc.x, nc.y, s, n] := outWord;
        forall t: nat, k | 0 <= k < 4 && (t < s || (t == s && k < n + 1))
          ensures DescribesBorder(ctl, ctl.csInport, nc, t, Side(k))
        {
          if t == s && k == n {
            assert DescribesBorder(ctl, ctl.csInport, nc, s, Side(n));
          } else {
            assert old@Built(DescribesBorder(ctl, ctl.csInport, nc, t, Side(k)));
            assert Code(Side(k)) == k;
          }
        }
      }
    }
    forall s: nat, border: Port | s < ctl.csNets && IsSide(border)
      ensures DescribesBorder(ctl, ctl.csInport, nc, s, border)
    {
      assert border == Side(Code(border));
    }
  }

  // ----- picking a position

  /** The coordinate that bit i of a border word stands for. */
  function Coordinate(n: nat, offset: int, i: nat): int {
    offset + n - 1 - i
  }

  function Distance(n: nat, offset: int, axis: int, i: nat): nat {
    Abs(Coordinate(n, offset, i) - axis)
  }

  ghost predicate IsNearest(word: nat, n: nat, offset: int, axis: int, i: nat) {
    && i < n && !Bit(word, i)
    && (forall k: nat :: k < n && !Bit(word, k) ==> Distance(n, offset, axis, i) <= Distance(n, offset, axis, k))
    && (forall k: nat :: k < i && !Bit(word, k) ==> Distance(n, offset, axis, i) < Distance(n, offset, axis, k))
  }

  /** The free position nearest to the axis, the larger coordinate where two are as near, or -1 where none is free. */
  ghost predicate IsPick(word: nat, n: nat, offset: int, axis: int, at: int) {
    if HasFreeBit(word, n) then exists i: nat :: IsNearest(word, n, offset, axis, i) && at == Coordinate(n, offset, i)
    else at == -1
  }

  method Heuristic(borderLength: nat, addrOffset: nat, portStatus: nat, axisRef: int,
                   impossible: nat) returns (addr: int)
    ensures IsPick(portStatus, borderLength, addrOffset, axisRef, addr)
  {
    addr := -1;
    var minAxisRef := impossible;
    ghost var best: nat := 0;
    for i := 0 to borderLength
      invariant addr == -1 ==> forall k: nat :: k < i ==> Bit(portStatus, k)
      invariant addr != -1 ==> best < i && !Bit(portStatus, best) && addr == Coordinate(borderLength, addrOffset, best)
      invariant addr != -1 ==> minAxisRef == Distance(borderLength, addrOffset, axisRef, best)
      invariant addr != -1 ==> forall k: nat :: k < i && !Bit(portStatus, k) ==>
        minAxisRef <= Distance(borderLength, addrOffset, axisRef, k)
      invariant addr != -1 ==> forall k: nat :: k < best && !Bit(portStatus, k) ==>
        minAxisRef < Distance(borderLength, addrOffset, axisRef, k)
    {
      var currAddr := addrOffset + (borderLength - 1) - i;
      var currAxisRef := Abs(currAddr - axisRef);
      if !Bit(portStatus, i) && (addr == -1 || currAxisRef < minAxisRef) {
        addr, minAxisRef, best := currAddr, currAxisRef, i;
      }
    }
    if addr != -1 {
      assert IsNearest(portStatus, borderLength, addrOffset, axisRef, best);
      assert HasFreeBit(portStatus, borderLength);
    }
  }

  /** Whoever picks from the same word picks the same position. */
  lemma PickIsUnique(word: nat, n: nat, offset: int, axis: int, at: int, at': int)
    requires IsPick(word, n, offset, axis, at) && IsPick(word, n, offset, axis, at')
    ensures at == at'
  {
    if HasFreeBit(word, n) {
      var i: nat :| IsNearest(word, n, offset, axis, i) && at == Coordinate(n, offset, i);
      var k: nat :| IsNearest(word, n, offset, axis, k) && at' == Coordinate(n, offset, k);
      assert Distance(n, offset, axis, i) == Distance(n, offset, axis, k);
      assert i == k;
    }
  }

  // ----- entry and exit of a detailed route

  function Corner(ctl: Controller, c: Router): Router {
    Router(c.x * ctl.xCluster, c.y * ctl.yCluster)
  }

  ghost predicate InCluster(ctl: Controller, c: Router, r: Router) {
    InGrid(Router(r.x - Corner(ctl, c).x, r.y - Corner(ctl, c).y), ctl.xCluster, ctl.yCluster)
  }

  function Axis(border: Port, r: Router): int {
    if IsVertical(border) then r.y else r.x
  }

  predicate IsCrossable(ctl: Controller, c: Router, side: Port) {
    && IsSide(side) && InGrid(c, ctl.xClusterNum, ctl.yClusterNum)
    && InGrid(Step(c, side), ctl.xClusterNum, ctl.yClusterNum)
  }

  /** The positions taken on either side of the border that cluster c leaves by. */
  function ExitWord(ctl: Controller, c: Router, side: Port, s: nat): nat
    requires ctl.Layout() && s < ctl.csNets && IsCrossable(ctl, c, side)
    reads ctl, ctl.borderInput, ctl.borderOutput
  {
    ctl.BorderWord(c, Step(c, side), Opposite(side), s)
  }

  /** The positions taken on either side of the border that cluster c is entered by. */
  function EntryWord(ctl: Controller, c: Router, side: Port, s: nat): nat
    requires ctl.Layout() && s < ctl.csNets && IsCrossable(ctl, c, side)
    reads ctl, ctl.borderInput, ctl.borderOutput
  {
    ctl.BorderWord(Step(c, side), c, side, s)
  }

  /**
   * Router r is where cluster c is left or entered, given the word of the crossing and the target of the whole path.
   */
  ghost predicate IsCrossing(ctl: Controller, c: Router, border: Port, word: nat, target: Router, r: Router)
    requires IsSide(border)
  {
    && r == BorderRouter(Corner(ctl, c), border, ctl.xCluster, ctl.yCluster, Axis(border, r))
    && IsPick(word, BorderLength(border, ctl.xCluster, ctl.yCluster), Axis(border, Corner(ctl, c)),
              Axis(border, target), Axis(border, r))
  }

  method Cross(ctl: Controller, c: Router, border: Port, word: nat, target: Router) returns (r: Router)
    requires IsSide(border) && c.x >= 0 && c.y >= 0
    ensures IsCrossing(ctl, c, border, word, target, r)
  {
    var corner := Corner(ctl, c);
    Product(c.x, ctl.xCluster);
    Product(c.y, ctl.yCluster);
    Product(ctl.xCluster, ctl.yCluster);
    var at := Heuristic(BorderLength(border, ctl.xCluster, ctl.yCluster), Axis(border, corner), word,
                        Axis(border, target),
                        ctl.xCluster * ctl.yCluster);
    r := BorderRouter(corner, border, ctl.xCluster, ctl.yCluster, at);
  }

  lemma Product(a: nat, b: nat)
    ensures a * b >= 0
  {
  }

  /**
   * Where a detailed route of cluster c begins and ends; the local ports stand for the source and the target
   * themselves.
   */
  method Endpoints(ctl: Controller, c: Router, source: Router, target: Router, entryBorder: Port, exitBorder: Port,
                   s: nat)
    returns (entry: Router, exit: Router)
    requires ctl.Layout() && s < ctl.csNets && InGrid(c, ctl.xClusterNum, ctl.yClusterNum)
    requires entryBorder == LocalIn || IsCrossable(ctl, c, entryBorder)
    requires exitBorder == LocalOut || IsCrossable(ctl, c, exitBorder)
    ensures entryBorder == LocalIn ==> entry == source
    ensures entryBorder != LocalIn ==> IsCrossing(ctl, c, entryBorder, EntryWord(ctl, c, entryBorder, s), target, entry)
    ensures exitBorder == LocalOut ==> exit == target
    ensures exitBorder != LocalOut ==> IsCrossing(ctl, c, exitBorder, ExitWord(ctl, c, exitBorder, s), target, exit)
  {
    entry, exit := source, target;
    if entryBorder != LocalIn {
      entry := Cross(ctl, c, entryBorder, EntryWord(ctl, c, entryBorder, s), target);
    }
    if exitBorder != LocalOut {
      exit := Cross(ctl, c, exitBorder, ExitWord(ctl, c, exitBorder, s), target);
    }
  }

  function Towards(p: Port, ahead: Port, behind: Port, n: int): int {
    if p == ahead then n else if p == behind then -n else 0
  }

  lemma NextCorner(ctl: Controller, c: Router, p: Port)
    requires IsSide(p)
    ensures Corner(ctl, Step(c, p)) ==
      Router(Corner(ctl, c).x + Towards(p, East, West, ctl.xCluster),
             Corner(ctl, c).y + Towards(p, North, South, ctl.yCluster))
  {
    var w, h := ctl.xCluster, ctl.yCluster;
    assert (c.x + 1) * w == c.x * w + w && (c.x - 1) * w == c.x * w - w;
    assert (c.y + 1) * h == c.y * h + h && (c.y - 1) * h == c.y * h - h;
  }

  /** The border words of a subnet use no more bits than the border has routers. */
  ghost predicate WordsFit(ctl: Controller, s: nat)
    requires ctl.Layout() && s < ctl.csNets
    reads ctl, ctl.borderInput, ctl.borderOutput
  {
    && (ctl.maxXBorder, ctl.maxYBorder) == (AllOnes(ctl.xCluster), AllOnes(ctl.yCluster))
    && forall c: Router, p: Port :: InGrid(c, ctl.xClusterNum, ctl.yClusterNum) && IsSide(p) ==>
      && ctl.borderInput[c.x, c.y, s, Code(p)] <= AllOnes(BorderLength(p, ctl.xCluster, ctl.yCluster))
      && ctl.borderOutput[c.x, c.y, s, Code(p)] <= AllOnes(BorderLength(p, ctl.xCluster, ctl.yCluster))
  }

  /** Position i of the border is the given router, and neither of the two clusters has marked it as blocked. */
  ghost predicate FreeAt(ctl: Controller, c: Router, side: Port, s: nat, exit: Router, i: nat)
    requires ctl.Layout() && s < ctl.csNets && IsCrossable(ctl, c, side)
    reads ctl, ctl.borderInput, ctl.borderOutput
  {
    var d := Step(c, side);
    && i < BorderLength(side, ctl.xCluster, ctl.yCluster)
    && Axis(side, exit) == Coordinate(BorderLength(side, ctl.xCluster, ctl.yCluster), Axis(side, Corner(ctl, c)), i)
    && !Bit(ctl.borderOutput[c.x, c.y, s, Code(side)], i)
    && !Bit(ctl.borderInput[d.x, d.y, s, Code(Opposite(side))], i)
  }

  /** A crossing the global search accepts has a free position. */
  lemma CrossableHasRoom(ctl: Controller, c: Router, side: Port, s: nat)
    requires ctl.Layout() && s < ctl.csNets && IsCrossable(ctl, c, side) && WordsFit(ctl, s)
    requires (c, Step(c, side)) in ctl.GlobalLinks(s)
    ensures HasFreeBit(ExitWord(ctl, c, side, s), BorderLength(side, ctl.xCluster, ctl.yCluster))
  {
    var d := Step(c, side);
    FacingIsMutual(c, d, side);
    FacingIsMutual(c, d, Facing(c, d));
    var n := BorderLength(side, ctl.xCluster, ctl.yCluster);
    OrIsBounded(ctl.borderOutput[c.x, c.y, s, Code(side)], ctl.borderInput[d.x, d.y, s, Code(Opposite(side))], n);
    FreeBitExists(ExitWord(ctl, c, side, s), n);
  }

  /** The exit is a router of its cluster at a position that both clusters' words mark as free. */
  lemma ExitIsFree(ctl: Controller, c: Router, side: Port, s: nat, target: Router, exit: Router)
    requires ctl.Layout() && s < ctl.csNets && IsCrossable(ctl, c, side)
    requires HasFreeBit(ExitWord(ctl, c, side, s), BorderLength(side, ctl.xCluster, ctl.yCluster))
    requires IsCrossing(ctl, c, side, ExitWord(ctl, c, side, s), target, exit)
    ensures InCluster(ctl, c, exit) && exists i: nat :: FreeAt(ctl, c, side, s, exit, i)
  {
    var n, d := BorderLength(side, ctl.xCluster, ctl.yCluster), Step(c, side);
    var offset, axis := Axis(side, Corner(ctl, c)), Axis(side, target);
    var i: nat :|
      IsNearest(ExitWord(ctl, c, side, s), n, offset, axis, i) && Axis(side, exit) == Coordinate(n, offset, i);
    BitOfOr(ctl.borderOutput[c.x, c.y, s, Code(side)], ctl.borderInput[d.x, d.y, s, Code(Opposite(side))], i);
    assert FreeAt(ctl, c, side, s, exit, i);
  }

  /**
   * Main result: when the global search crosses a border, the cluster it leaves and the cluster it enters compute
   * routers that face each other across it, each inside its own cluster, at a position that both clusters' words mark
   * as free.
   */
  lemma BordersMeet(ctl: Controller, c: Router, side: Port, s: nat, target: Router, exit: Router, entry: Router)
    requires ctl.Layout() && s < ctl.csNets && IsCrossable(ctl, c, side) && WordsFit(ctl, s)
    requires (c, Step(c, side)) in ctl.GlobalLinks(s)
    requires IsCrossing(ctl, c, side, ExitWord(ctl, c, side, s), target, exit)
    requires IsCrossing(ctl, Step(c, side), Opposite(side), EntryWord(ctl, Step(c, side), Opposite(side), s),
                        target, entry)
    ensures entry == Step(exit, side) && InCluster(ctl, c, exit) && InCluster(ctl, Step(c, side), entry)
    ensures exists i: nat :: FreeAt(ctl, c, side, s, exit, i)
  {
    CrossableHasRoom(ctl, c, side, s);
    ExitIsFree(ctl, c, side, s, target, exit);
    NextCorner(ctl, c, side);
    PickIsUnique(ExitWord(ctl, c, side, s), BorderLength(side, ctl.xCluster, ctl.yCluster), Axis(side, Corner(ctl, c)),
                 Axis(side, target), Axis(side, exit), Axis(side, entry));
  }

  /**
   * At this position of the border between two clusters a hop leads to the router on the one side, and on the other
   * side the entry port is free and a hop leads on.
   */
  ghost predicate IsOpenPosition(left: array4<Entry>, entered: array4<Entry>, side: Port, s: nat, at: int)
    requires HasTable(left, s) && HasTable(entered, s) && IsSide(side)
    reads left, entered
  {
    var exit := BorderRouter(Router(0, 0), side, left.Length0, left.Length1, at);
    var entry := BorderRouter(Router(0, 0), Opposite(side), entered.Length0, entered.Length1, at);
    && (exists u :: (u, exit) in LocalLinks(PortTable(left), s, left.Length0, left.Length1))
    && InGrid(entry, entered.Length0, entered.Length1)
    && entered[entry.x, entry.y, s, Code(Opposite(side))] == Free
    && (exists v :: (entry, v) in LocalLinks(PortTable(entered), s, entered.Length0, entered.Length1))
  }

  /** What the position means for the routers: the exit can be reached, and the entry port is free and leads on. */
  lemma MeetingPointIsFree(ctl: Controller, left: array4<Entry>, entered: array4<Entry>, c: Router, side: Port, s: nat,
                           exit: Router, i: nat)
    requires ctl.Layout() && s < ctl.csNets && IsCrossable(ctl, c, side) && FreeAt(ctl, c, side, s, exit, i)
    requires DescribesBorder(ctl, left, c, s, side) && DescribesBorder(ctl, entered, Step(c, side), s, Opposite(side))
    ensures IsOpenPosition(left, entered, side, s, Axis(side, exit) - Axis(side, Corner(ctl, c)))
  {
    hide LocalLinks, Bit;
    var at := Axis(side, exit) - Axis(side, Corner(ctl, c));
    assert BorderRouter(Router(0, 0), side, ctl.xCluster, ctl.yCluster, at) == At(left, side, i);
    assert BorderRouter(Router(0, 0), Opposite(side), ctl.xCluster, ctl.yCluster, at) == At(entered, Opposite(side), i);
  }

  /** What one cluster's words say when they travel with a detailed routing request. */
  datatype BorderWords = BorderWords(cluster: Router, input: seq<nat>, output: seq<nat>)

  ghost predicate Carries(ctl: Controller, words: BorderWords, s: nat)
    requires ctl.Layout() && s < ctl.csNets && InGrid(words.cluster, ctl.xClusterNum, ctl.yClusterNum)
    reads ctl, ctl.borderInput, ctl.borderOutput
  {
    && |words.input| == |words.output| == 4
    && forall k :: 0 <= k < 4 ==>
      && ctl.borderInput[words.cluster.x, words.cluster.y, s, k] == words.input[k]
      && ctl.borderOutput[words.cluster.x, words.cluster.y, s, k] == words.output[k]
  }

  predicate IsWord(ctl: Controller, c: Router, s: nat, k: nat) {
    InGrid(c, ctl.xClusterNum, ctl.yClusterNum) && s < ctl.csNets && k < 4
  }

  /** The message for subnet s says nothing of cluster c on subnet n. */
  ghost predicate Unlisted(msg: seq<BorderWords>, s: nat, c: Router, n: nat) {
    n != s || forall i :: 0 <= i < |msg| ==> msg[i].cluster != c
  }

  /** A controller on the path takes over the words the master sent. */
  method UpdateClusterBorder(ctl: Controller, s: nat, msg: seq<BorderWords>)
    requires ctl.Layout() && s < ctl.csNets && ctl.borderInput != ctl.borderOutput
    requires forall i :: 0 <= i < |msg| ==>
      InGrid(msg[i].cluster, ctl.xClusterNum, ctl.yClusterNum) && |msg[i].input| == |msg[i].output| == 4
    requires forall i, j :: 0 <= i < j < |msg| ==> msg[i].cluster != msg[j].cluster
    modifies ctl.borderInput, ctl.borderOutput
    ensures ctl.Layout()
    ensures forall i :: 0 <= i < |msg| ==> Carries(ctl, msg[i], s)
    ensures forall c: Router, n: nat, k: nat :: IsWord(ctl, c, n, k) && Unlisted(msg, s, c, n) ==>
      && ctl.borderInput[c.x, c.y, n, k] == old(ctl.borderInput[c.x, c.y, n, k])
      && ctl.borderOutput[c.x, c.y, n, k] == old(ctl.borderOutput[c.x, c.y, n, k])
  {
    for i := 0 to |msg|
      invariant forall j :: 0 <= j < i ==> Carries(ctl, msg[j], s)
      invariant forall c: Router, n: nat, k: nat :: IsWord(ctl, c, n, k) && Unlisted(msg, s, c, n) ==>
        && ctl.borderInput[c.x, c.y, n, k] == old(ctl.borderInput[c.x, c.y, n, k])
        && ctl.borderOutput[c.x, c.y, n, k] == old(ctl.borderOutput[c.x, c.y, n, k])
    {
      var c := msg[i].cluster;
      for k := 0 to 4
        invariant forall j :: 0 <= j < i ==> Carries(ctl, msg[j], s)
        invariant forall d: Router, n: nat, k: nat :: IsWord(ctl, d, n, k) && Unlisted(msg, s, d, n) ==>
          && ctl.borderInput[d.x, d.y, n, k] == old(ctl.borderInput[d.x, d.y, n, k])
          && ctl.borderOutput[d.x, d.y, n, k] == old(ctl.borderOutput[d.x, d.y, n, k])
        invariant forall j :: 0 <= j < k ==>
          ctl.borderInput[c.x, c.y, s, j] == msg[i].input[j] && ctl.borderOutput[c.x, c.y, s, j] == msg[i].output[j]
      {
        ctl.borderInput[c.x, c.y, s, k] := msg[i].input[k];
        ctl.borderOutput[c.x, c.y, s, k] := msg[i].output[k];
      }
    }
  }

  /** Two controllers that took over the same message see the same words at every border between clusters it lists. */
  lemma SameWords(ctl: Controller, other: Controller, s: nat, msg: seq<BorderWords>, c: Router, side: Port, i: nat,
                  j: nat)
    requires ctl.Layout() && other.Layout() && s < ctl.csNets && s < other.csNets
    requires IsCrossable(ctl, c, side) && IsCrossable(other, c, side)
    requires i < |msg| && j < |msg| && msg[i].cluster == c && msg[j].cluster == Step(c, side)
    requires Carries(ctl, msg[i], s) && Carries(ctl, msg[j], s) && Carries(other, msg[i], s)
    requires Carries(other, msg[j], s)
    ensures ExitWord(ctl, c, side, s) == EntryWord(other, Step(c, side), Opposite(side), s)
  {
  }

  /** Two controllers count clusters and routers alike. */
  ghost predicate SameDimensions(ctl: Controller, other: Controller) {
    && (other.xCluster, other.yCluster) == (ctl.xCluster, ctl.yCluster)
    && (other.xClusterNum, other.yClusterNum) == (ctl.xClusterNum, ctl.yClusterNum)
  }

  /**
   * Main result: the controllers of two neighbouring clusters compute their ends of a crossing separately, each from
   * the words it took over from the master's message, and pick routers that face each other across the border, each
   * inside its own cluster. If the words describe the two clusters' port tables, the exit can be reached in the one and
   * the entry port is free and leads on in the other.
   */
  lemma SeparateClustersMeet(master: Controller, leaver: Controller, enterer: Controller, left: array4<Entry>,
                             entered: array4<Entry>,
                             c: Router, side: Port, s: nat, msg: seq<BorderWords>, i: nat, j: nat,
                             target: Router, exit: Router, entry: Router)
    requires master.Layout() && leaver.Layout() && enterer.Layout() && s < master.csNets && s < leaver.csNets
    requires s < enterer.csNets
    requires SameDimensions(master, leaver) && SameDimensions(master, enterer)
    requires IsCrossable(master, c, side) && WordsFit(master, s) && (c, Step(c, side)) in master.GlobalLinks(s)
    requires i < |msg| && j < |msg| && msg[i].cluster == c && msg[j].cluster == Step(c, side)
    requires Carries(master, msg[i], s) && Carries(master, msg[j], s)
    requires Carries(leaver, msg[i], s) && Carries(leaver, msg[j], s) && Carries(enterer, msg[i], s)
    requires Carries(enterer, msg[j], s)
    requires DescribesBorder(leaver, left, c, s, side)
    requires DescribesBorder(enterer, entered, Step(c, side), s, Opposite(side))
    requires IsCrossing(leaver, c, side, ExitWord(leaver, c, side, s), target, exit)
    requires IsCrossable(enterer, Step(c, side), Opposite(side))
    requires IsCrossing(enterer, Step(c, side), Opposite(side), EntryWord(enterer, Step(c, side), Opposite(side), s),
                         target, entry)
    ensures entry == Step(exit, side) && InCluster(leaver, c, exit) && InCluster(enterer, Step(c, side), entry)
    ensures exists at ::
      && exit == BorderRouter(Corner(leaver, c), side, leaver.xCluster, leaver.yCluster,
                              at + Axis(side, Corner(leaver, c)))
      && IsOpenPosition(left, entered, side, s, at)
  {
    hide WordsFit, DescribesBorder, Carries, ExitWord, EntryWord, IsCrossing, IsOpenPosition;
    SameCrossings(master, leaver, enterer, s, msg, c, side, i, j, target, exit, entry);
    SameBorder(master, leaver, left, s, msg[i], side);
    SameBorder(master, enterer, entered, s, msg[j], Opposite(side));
    BordersMeet(master, c, side, s, target, exit, entry);
    var k: nat :| FreeAt(master, c, side, s, exit, k);
    MeetingPointIsFree(master, left, entered, c, side, s, exit, k);
    ExitOnBorder(master, c, side, ExitWord(master, c, side, s), target, exit);
  }

  lemma ExitOnBorder(ctl: Controller, c: Router, side: Port, word: nat, target: Router, exit: Router)
    requires IsSide(side) && IsCrossing(ctl, c, side, word, target, exit)
    ensures exit == BorderRouter(Corner(ctl, c), side, ctl.xCluster, ctl.yCluster, Axis(side, exit))
  {
  }

  lemma SameCrossings(master: Controller, leaver: Controller, enterer: Controller, s: nat, msg: seq<BorderWords>,
                      c: Router, side: Port,
                      i: nat, j: nat, target: Router, exit: Router, entry: Router)
    requires master.Layout() && leaver.Layout() && enterer.Layout() && s < master.csNets && s < leaver.csNets
    requires s < enterer.csNets
    requires SameDimensions(master, leaver) && SameDimensions(master, enterer)
    requires IsCrossable(master, c, side) && IsCrossable(enterer, Step(c, side), Opposite(side))
    requires i < |msg| && j < |msg| && msg[i].cluster == c && msg[j].cluster == Step(c, side)
    requires Carries(master, msg[i], s) && Carries(master, msg[j], s)
    requires Carries(leaver, msg[i], s) && Carries(leaver, msg[j], s) && Carries(enterer, msg[i], s)
    requires Carries(enterer, msg[j], s)
    requires IsCrossing(leaver, c, side, ExitWord(leaver, c, side, s), target, exit)
    requires IsCrossing(enterer, Step(c, side), Opposite(side), EntryWord(enterer, Step(c, side), Opposite(side), s),
                         target, entry)
    ensures IsCrossable(master, Step(c, side), Opposite(side))
    ensures IsCrossing(master, c, side, ExitWord(master, c, side, s), target, exit)
    ensures IsCrossing(master, Step(c, side), Opposite(side), EntryWord(master, Step(c, side), Opposite(side), s),
                        target, entry)
  {
    hide IsPick;
    SameWords(leaver, master, s, msg, c, side, i, j);
    SameWords(master, master, s, msg, c, side, i, j);
    SameWords(master, enterer, s, msg, c, side, i, j);
  }

  /** Words that were taken over describe the same port table. */
  lemma SameBorder(ctl: Controller, other: Controller, table: array4<Entry>, s: nat, words: BorderWords, side: Port)
    requires ctl.Layout() && other.Layout() && s < ctl.csNets && s < other.csNets && SameDimensions(ctl, other)
    requires IsSide(side)
    requires InGrid(words.cluster, ctl.xClusterNum, ctl.yClusterNum) && Carries(ctl, words, s)
    requires Carries(other, words, s)
    requires DescribesBorder(other, table, words.cluster, s, side)
    ensures DescribesBorder(ctl, table, words.cluster, s, side)
  {
    hide IsBorderStatus;
  }
}
