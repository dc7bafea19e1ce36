/** Dynamic time warping of two series of feature vectors, computed with two rolling columns. */
module Dtw {

  type Vector = seq<int>
  type Series = seq<Vector>

  ghost predicate IsSeries(x: Series, size: nat) {
    size > 0 && |x| == size && forall i :: 0 <= i < size ==> |x[i]| == size
  }

  /** The sum of the squared differences of the first n elements. */
  function SquaredDistance(x: Vector, y: Vector, n: nat): nat
    requires n <= |x| && n <= |y|
  {
    if n == 0 then 0 else
      var aux := x[n - 1] - y[n - 1];
      Square(aux) + SquaredDistance(x, y, n - 1)
  }

  function Square(a: int): (r: nat)
  {
    a * a
  }

  lemma SquareIsEven(a: int)
    ensures Square(-a) == Square(a)
  {
  }

  lemma {:induction false} DistanceIsSymmetric(x: Vector, y: Vector, n: nat)
    requires n <= |x| && n <= |y|
    ensures SquaredDistance(x, y, n) == SquaredDistance(y, x, n)
    ensures x == y ==> SquaredDistance(x, y, n) == 0
  {
    if n > 0 {
      DistanceIsSymmetric(x, y, n - 1);
      SquareIsEven(x[n - 1] - y[n - 1]);
    }
  }

  method EuclideanDistance(x: Vector, y: Vector, size: nat) returns (ed: nat)
    requires |x| == |y| == size
    ensures ed == SquaredDistance(x, y, size)
  {
    ed := 0;
    for i := 0 to size
      invariant ed == SquaredDistance(x, y, i)
    {
      var aux := x[i] - y[i];
      ed := ed + Square(aux);
    }
  }

  // ----- warping paths

  /** Entry i of one series is matched with entry j of the other. */
  datatype Cell = Cell(i: nat, j: nat)

  function Cost(x: Series, y: Series, size: nat, c: Cell): nat
    requires IsSeries(x, size) && IsSeries(y, size) && c.i < size && c.j < size
  {
    SquaredDistance(x[c.i], y[c.j], size)
  }

  /** From one cell to the next, in one series or the other or both. */
  predicate IsStep(a: Cell, b: Cell) {
    b == Cell(a.i + 1, a.j) || b == Cell(a.i, a.j + 1) || b == Cell(a.i + 1, a.j + 1)
  }

  ghost predicate IsWarping(p: seq<Cell>, end: Cell) {
    && p != [] && p[0] == Cell(0, 0) && p[|p| - 1] == end
    && forall k :: 0 <= k < |p| - 1 ==> IsStep(p[k], p[k + 1])
  }

  /** No cell of a warping path lies beyond its end. */
  lemma {:induction false} WarpingIsMonotone(p: seq<Cell>, end: Cell, k: nat)
    requires IsWarping(p, end) && k < |p|
    ensures p[k].i <= end.i && p[k].j <= end.j
    decreases |p| - k
  {
    if k < |p| - 1 {
      assert IsStep(p[k], p[k + 1]);
      WarpingIsMonotone(p, end, k + 1);
    }
  }

  ghost function Total(x: Series, y: Series, size: nat, p: seq<Cell>): nat
    requires IsSeries(x, size) && IsSeries(y, size) && forall k :: 0 <= k < |p| ==> p[k].i < size && p[k].j < size
  {
    if p == [] then 0 else Total(x, y, size, p[..|p| - 1]) + Cost(x, y, size, p[|p| - 1])
  }

  function Min(a: nat, b: nat): nat {
    if a > b then b else a
  }

  /** The recurrence behind the columns. */
  function Least(x: Series, y: Series, size: nat, i: nat, j: nat): nat
    requires IsSeries(x, size) && IsSeries(y, size) && i < size && j < size
  {
    Cost(x, y, size, Cell(i, j)) +
    if i == 0 && j == 0 then 0
    else if i == 0 then Least(x, y, size, i, j - 1)
    else if j == 0 then Least(x, y, size, i - 1, j)
    else Min(Least(x, y, size, i - 1, j), Min(Least(x, y, size, i - 1, j - 1), Least(x, y, size, i, j - 1)))
  }

  /** The recurrence is a lower bound on every warping path. */
  lemma {:induction false} LeastIsLowerBound(x: Series, y: Series, size: nat, p: seq<Cell>, end: Cell)
    requires IsSeries(x, size) && IsSeries(y, size) && end.i < size && end.j < size && IsWarping(p, end)
    requires forall k :: 0 <= k < |p| ==> p[k].i < size && p[k].j < size
    ensures Least(x, y, size, end.i, end.j) <= Total(x, y, size, p)
    decreases |p|
  {
    hide Cost, IsSeries;
    if |p| > 1 {
      var init := p[..|p| - 1];
      assert IsStep(p[|p| - 2], p[|p| - 2 + 1]);
      forall k | 0 <= k < |init| - 1 ensures IsStep(init[k], init[k + 1]) {
        assert IsStep(p[k], p[k + 1]);
      }
      LeastIsLowerBound(x, y, size, init, init[|init| - 1]);
    }
  }

  /** The recurrence is the total of some warping path. */
  lemma AddCell(x: Series, y: Series, size: nat, before: seq<Cell>, from: Cell, end: Cell)
    requires IsSeries(x, size) && IsSeries(y, size) && end.i < size && end.j < size
    requires IsWarping(before, from) && InRange(before, size) && IsStep(from, end)
    ensures IsWarping(before + [end], end) && InRange(before + [end], size)
    ensures Total(x, y, size, before + [end]) == Total(x, y, size, before) + Cost(x, y, size, end)
  {
    hide Cost;
    var p := before + [end];
    assert p[..|p| - 1] == before;
    forall k | 0 <= k < |p| - 1 ensures IsStep(p[k], p[k + 1]) {
      if k < |before| - 1 { assert IsStep(before[k], before[k + 1]); }
    }
  }

  /** The cell a least path comes from. */
  function Best(x: Series, y: Series, size: nat, i: nat, j: nat): (c: Cell)
    requires IsSeries(x, size) && IsSeries(y, size) && i < size && j < size && i + j > 0
    ensures IsStep(c, Cell(i, j)) && c.i <= i && c.j <= j
    ensures Least(x, y, size, i, j) == Least(x, y, size, c.i, c.j) + Cost(x, y, size, Cell(i, j))
  {
    if i == 0 then Cell(i, j - 1)
    else if j == 0 then Cell(i - 1, j)
    else
      var a, b, c := Least(x, y, size, i - 1, j), Least(x, y, size, i - 1, j - 1), Least(x, y, size, i, j - 1);
      if a <= b && a <= c then Cell(i - 1, j) else if b <= c then Cell(i - 1, j - 1) else Cell(i, j - 1)
  }

  lemma {:induction false} LeastIsAchieved(x: Series, y: Series, size: nat, i: nat, j: nat) returns (p: seq<Cell>)
    requires IsSeries(x, size) && IsSeries(y, size) && i < size && j < size
    ensures IsWarping(p, Cell(i, j)) && InRange(p, size)
    ensures Total(x, y, size, p) == Least(x, y, size, i, j)
    decreases i + j
  {
    if i == 0 && j == 0 {
      p := [Cell(0, 0)];
      StartTotal(x, y, size);
    } else {
      hide Least, Total, IsWarping, InRange, IsSeries, Cost;
      var from := Best(x, y, size, i, j);
      var before := LeastIsAchieved(x, y, size, from.i, from.j);
      AddCell(x, y, size, before, from, Cell(i, j));
      p := before + [Cell(i, j)];
    }
  }

  lemma StartTotal(x: Series, y: Series, size: nat)
    requires IsSeries(x, size) && IsSeries(y, size)
    ensures IsWarping([Cell(0, 0)], Cell(0, 0)) && InRange([Cell(0, 0)], size)
    ensures Total(x, y, size, [Cell(0, 0)]) == Least(x, y, size, 0, 0)
  {
    assert [Cell(0, 0)][..0] == [];
  }

  ghost predicate IsLeastTotal(x: Series, y: Series, size: nat, r: nat)
    requires IsSeries(x, size) && IsSeries(y, size)
  {
    && (exists p :: IsWarping(p, Cell(size - 1, size - 1)) && InRange(p, size) && Total(x, y, size, p) == r)
    && (forall p :: IsWarping(p, Cell(size - 1, size - 1)) ==> InRange(p, size) && r <= Total(x, y, size, p))
  }

  ghost predicate InRange(p: seq<Cell>, size: nat) {
    forall k :: 0 <= k < |p| ==> p[k].i < size && p[k].j < size
  }

  lemma LeastIsLeastTotal(x: Series, y: Series, size: nat)
    requires IsSeries(x, size) && IsSeries(y, size)
    ensures IsLeastTotal(x, y, size, Least(x, y, size, size - 1, size - 1))
  {
    var end := Cell(size - 1, size - 1);
    var p := LeastIsAchieved(x, y, size, size - 1, size - 1);
    assert InRange(p, size);
    forall p: seq<Cell> | IsWarping(p, end)
      ensures InRange(p, size) && Least(x, y, size, size - 1, size - 1) <= Total(x, y, size, p)
    {
      forall k | 0 <= k < |p| ensures p[k].i < size && p[k].j < size { WarpingIsMonotone(p, end, k); }
      LeastIsLowerBound(x, y, size, p, end);
    }
  }

  lemma CostIsSymmetric(x: Series, y: Series, size: nat, i: nat, j: nat)
    requires IsSeries(x, size) && IsSeries(y, size) && i < size && j < size
    ensures Cost(x, y, size, Cell(i, j)) == Cost(y, x, size, Cell(j, i))
    ensures x == y && i == j ==> Cost(x, y, size, Cell(i, j)) == 0
  {
    DistanceIsSymmetric(x[i], y[j], size);
  }

  lemma {:induction false} LeastIsSymmetric(x: Series, y: Series, size: nat, i: nat, j: nat)
    requires IsSeries(x, size) && IsSeries(y, size) && i < size && j < size
    ensures Least(x, y, size, i, j) == Least(y, x, size, j, i)
    ensures x == y && i == j ==> Least(x, y, size, i, j) == 0
  {
    hide Cost, IsSeries;
    CostIsSymmetric(x, y, size, i, j);
    if i > 0 { LeastIsSymmetric(x, y, size, i - 1, j); }
    if j > 0 { LeastIsSymmetric(x, y, size, i, j - 1); }
    if i > 0 && j > 0 { LeastIsSymmetric(x, y, size, i - 1, j - 1); }
  }

  /** The columns the program has computed. */
  ghost predicate IsColumn(x: Series, y: Series, size: nat, i: nat, n: nat, col: seq<nat>)
    requires IsSeries(x, size) && IsSeries(y, size) && i < size
  {
    n <= size == |col| && forall k :: 0 <= k < n ==> col[k] == Least(x, y, size, i, k)
  }

  lemma FirstColumn(x: Series, y: Series, size: nat, j: nat, col: seq<nat>, col': seq<nat>)
    requires IsSeries(x, size) && IsSeries(y, size) && j < size && IsColumn(x, y, size, 0, j, col)
    requires col' == col[j := Cost(x, y, size, Cell(0, j)) + if j == 0 then 0 else col[j - 1]]
    ensures IsColumn(x, y, size, 0, j + 1, col')
  {
    hide Cost;
  }

  lemma NextColumn(x: Series, y: Series, size: nat, i: nat, j: nat, last: seq<nat>, col: seq<nat>, col': seq<nat>)
    requires IsSeries(x, size) && IsSeries(y, size) && 0 < i < size && j < size
    requires IsColumn(x, y, size, i - 1, size, last) && IsColumn(x, y, size, i, j, col)
    requires col' == col[j := Cost(x, y, size, Cell(i, j))
                              + if j == 0 then last[0] else Min(last[j], Min(last[j - 1], col[j - 1]))]
    ensures IsColumn(x, y, size, i, j + 1, col')
  {
    hide Cost;
  }

  /** Main result: the program returns the least total over all warping paths. */
  method DynamicTimeWarping(x: Series, y: Series, size: nat) returns (r: nat)
    requires IsSeries(x, size) && IsSeries(y, size)
    ensures IsLeastTotal(x, y, size, r)
  {
    hide Least, IsColumn, IsLeastTotal;
    var lastCol, currCol := new nat[size](_ => 0), new nat[size](_ => 0);
    NoColumn(x, y, size, 0, currCol[..]);
    ghost var before := currCol[..];
    currCol[0] := EuclideanDistance(x[0], y[0], size);
    FirstColumn(x, y, size, 0, before, currCol[..]);
    for j := 1 to size
      invariant IsColumn(x, y, size, 0, j, currCol[..])
    {
      var d := EuclideanDistance(x[0], y[j], size);
      before := currCol[..];
      currCol[j] := currCol[j - 1] + d;
      FirstColumn(x, y, size, j, before, currCol[..]);
    }
    for i := 1 to size
      invariant IsColumn(x, y, size, i - 1, size, currCol[..])
    {
      ghost var last := currCol[..];
      ColumnSize(x, y, size, i - 1, last);
      forall k | 0 <= k < size { lastCol[k] := currCol[k]; }
      assert lastCol[..] == last;
      NoColumn(x, y, size, i, currCol[..]);
      var first := EuclideanDistance(x[i], y[0], size);
      before := currCol[..];
      currCol[0] := lastCol[0] + first;
      NextColumn(x, y, size, i, 0, last, before, currCol[..]);
      for j := 1 to size
        invariant lastCol[..] == last && IsColumn(x, y, size, i, j, currCol[..])
      {
        var minGlobalCost := Min(lastCol[j], Min(lastCol[j - 1], currCol[j - 1]));
        var d := EuclideanDistance(x[i], y[j], size);
        before := currCol[..];
        currCol[j] := minGlobalCost + d;
        NextColumn(x, y, size, i, j, last, before, currCol[..]);
      }
    }
    r := currCol[size - 1];
    ColumnEnds(x, y, size, currCol[..]);
  }

  lemma ColumnSize(x: Series, y: Series, size: nat, i: nat, col: seq<nat>)
    requires IsSeries(x, size) && IsSeries(y, size) && i < size && IsColumn(x, y, size, i, size, col)
    ensures |col| == size
  {
  }

  lemma NoColumn(x: Series, y: Series, size: nat, i: nat, col: seq<nat>)
    requires IsSeries(x, size) && IsSeries(y, size) && i < size == |col|
    ensures IsColumn(x, y, size, i, 0, col)
  {
  }

  lemma ColumnEnds(x: Series, y: Series, size: nat, col: seq<nat>)
    requires IsSeries(x, size) && IsSeries(y, size) && IsColumn(x, y, size, size - 1, size, col)
    ensures |col| == size && IsLeastTotal(x, y, size, col[size - 1])
  {
    LeastIsLeastTotal(x, y, size);
  }

  /** Warping a series against another costs the same either way round, and nothing against itself. */
  lemma WarpingIsSymmetric(x: Series, y: Series, size: nat, r: nat, r': nat)
    requires IsSeries(x, size) && IsSeries(y, size) && IsLeastTotal(x, y, size, r) && IsLeastTotal(y, x, size, r')
    ensures r == r' && (x == y ==> r == 0)
  {
    LeastIsLeastTotal(x, y, size);
    LeastIsLeastTotal(y, x, size);
    LeastIsSymmetric(x, y, size, size - 1, size - 1);
  }
}
