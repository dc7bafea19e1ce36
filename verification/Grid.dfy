/** Routers, ports and routes of a mesh: the vocabulary shared by the path search and by the port tables. */
module Grid {
  import opened Basics

  /** The six port codes of a router.  EAST grows x and NORTH grows y. */
  datatype Port = East | West | North | South | LocalOut | LocalIn

  /** A router or cluster address, the pair that the program packs as `x << 8 | y`. */
  datatype Router = Router(x: int, y: int)

  predicate InGrid(r: Router, w: int, h: int) {
    0 <= r.x < w && 0 <= r.y < h
  }

  predicate IsSide(p: Port) {
    p != LocalOut && p != LocalIn
  }

  function Opposite(p: Port): Port
    requires IsSide(p)
  {
    match p
    case East => West
    case West => East
    case North => South
    case South => North
  }

  function Step(r: Router, p: Port): Router
    requires IsSide(p)
  {
    match p
    case East => Router(r.x + 1, r.y)
    case West => Router(r.x - 1, r.y)
    case North => Router(r.x, r.y + 1)
    case South => Router(r.x, r.y - 1)
  }

  function Abs(n: int): nat {
    if n < 0 then -n else n
  }

  function Manhattan(a: Router, b: Router): nat {
    Abs(a.x - b.x) + Abs(a.y - b.y)
  }

  predicate Adjacent(a: Router, b: Router) {
    Manhattan(a, b) == 1
  }

  /** The port of `a` on the side of `b`. */
  function Facing(a: Router, b: Router): (p: Port)
    ensures IsSide(p)
    ensures Adjacent(a, b) ==> Step(a, p) == b
  {
    if b.x > a.x then East
    else if b.x < a.x then West
    else if b.y > a.y then North
    else South
  }

  /** Neighbouring routers see each other through opposite ports, and a port has one neighbour behind it. */
  lemma FacingIsMutual(a: Router, b: Router, p: Port)
    requires IsSide(p)
    ensures Adjacent(a, b) ==> Opposite(Facing(a, b)) == Facing(b, a)
    ensures Adjacent(a, Step(a, p)) && Facing(a, Step(a, p)) == p && Facing(Step(a, p), a) == Opposite(p)
  {
  }

  ghost predicate Distinct<T>(s: seq<T>) {
    forall i, j :: 0 <= i < j < |s| ==> s[i] != s[j]
  }

  ghost function Cells(w: int, h: int): (cells: set<Router>)
    ensures forall r: Router :: r in cells <==> InGrid(r, w, h)
  {
    var cells := set x, y | 0 <= x < w && 0 <= y < h :: Router(x, y);
    assert forall r: Router :: r == Router(r.x, r.y);
    cells
  }

  ghost function Column(x: int, h: int): set<Router> {
    set y | 0 <= y < h :: Router(x, y)
  }

  lemma {:induction false} CellCount(w: nat, h: nat)
    ensures |Cells(w, h)| == w * h
  {
    if w == 0 {
      assert Cells(w, h) == {};
    } else {
      CellCount(w - 1, h);
      ColumnCount(w - 1, h);
      assert Cells(w, h) == Cells(w - 1, h) + Column(w - 1, h);
      assert Cells(w - 1, h) !! Column(w - 1, h);
      assert (w - 1) * h + h == w * h;
    }
  }

  lemma {:induction false} ColumnCount(x: int, h: nat)
    ensures |Column(x, h)| == h
  {
    if h == 0 {
      assert Column(x, h) == {};
    } else {
      ColumnCount(x, h - 1);
      assert Column(x, h) == Column(x, h - 1) + {Router(x, h - 1)};
    }
  }

  /** A list of different routers of the grid is no longer than the grid has routers. */
  lemma {:induction false} DistinctFits(s: seq<Router>, cells: set<Router>)
    requires Distinct(s)
    requires forall r :: r in s ==> r in cells
    ensures |s| <= |cells|
  {
    if |s| > 0 {
      var n := |s| - 1;
      forall r | r in s[..n] ensures r in cells - {s[n]} {
      }
      DistinctFits(s[..n], cells - {s[n]});
    }
  }

  lemma GridFits(a: nat, b: nat, w: nat, h: nat)
    requires a <= w && b <= h
    ensures |Cells(a, b)| <= |Cells(w, h)|
    ensures a > 0 && b > 0 ==> |Cells(a, b)| > 0
  {
    SubsetSize(Cells(a, b), Cells(w, h));
    if a > 0 && b > 0 {
      assert Router(0, 0) in Cells(a, b);
    }
  }
}
