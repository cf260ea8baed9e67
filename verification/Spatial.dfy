/** A uniform grid over sight discs, so that a point is only tested against discs near it. */
module Spatial {
  import opened Geometry
  import opened Maps

  /** A sight disc, with its radius squared. */
  datatype Circle = Circle(at: Vec, r2: real)

  ghost predicate IsSqrt(sqrt: real -> real) {
    forall x {:trigger sqrt(x)} | 0.0 <= x :: 0.0 <= sqrt(x) && sqrt(x) * sqrt(x) == x
  }

  /** p lies in the disc. */
  predicate Contains(c: Circle, p: Vec) {
    (p.x - c.at.x) * (p.x - c.at.x) + (p.y - c.at.y) * (p.y - c.at.y) <= c.r2
  }

  /** Brute force: p lies in some disc. */
  ghost predicate Inside(circles: seq<Circle>, p: Vec) {
    exists i :: 0 <= i < |circles| && Contains(circles[i], p)
  }

  /** Go's conversion of a float to an int drops the fraction. */
  function Truncated(x: real): int {
    if 0.0 <= x then x.Floor else -((-x).Floor)
  }

  lemma FloorIsMonotone(a: real, b: real)
    requires a <= b
    ensures a.Floor <= b.Floor
  {
  }

  lemma QuotientIsMonotone(a: real, b: real, d: real)
    requires a <= b && 0.0 < d
    ensures a / d <= b / d
    ensures 0.0 <= a ==> 0.0 <= a / d
  {
    var p, q := a / d, b / d;
    assert p * d == a && q * d == b;
  }

  /** The cells of a row or column: those of size d that cover the span from lo to hi. */
  datatype Axis = Axis(lo: real, d: real, n: int)
  {
    /** The cell of coordinate x. */
    function Cell(x: real): int
      requires 0.0 < d
    {
      Truncated((x - lo) / d)
    }

    /** Coordinates up to hi fall in the cells. */
    ghost predicate Reaches(hi: real) {
      0.0 < d && 0 < n && (lo <= hi ==> Cell(hi) < n)
    }

    lemma CellsAscend(x: real, y: real)
      requires 0.0 < d && lo <= x <= y
      ensures 0 <= Cell(x) <= Cell(y)
    {
      QuotientIsMonotone(x - lo, y - lo, d);
      FloorIsMonotone((x - lo) / d, (y - lo) / d);
    }
  }

  /** newSpatialIndex's choice of cells along one axis: as many as cover the span. */
  function AxisFor(lo: real, hi: real, d: real): (a: Axis)
    requires 0.0 < d
    ensures a.lo == lo && a.d == d && a.Reaches(hi)
  {
    var span := if hi - lo < d then d else hi - lo;
    var n := Truncated(span / d) + 1;
    assert 0 < n && (lo <= hi ==> Truncated((hi - lo) / d) < n) by {
      QuotientIsMonotone(0.0, span, d);
      if lo <= hi {
        QuotientIsMonotone(hi - lo, span, d);
        FloorIsMonotone((hi - lo) / d, span / d);
      }
    }
    Axis(lo, d, if n < 1 then 1 else n)
  }

  lemma SlotInRange(col: int, row: int, cols: int, rows: int)
    requires 0 <= col < cols && 0 <= row < rows
    ensures 0 <= col + row * cols < cols * rows
  {
    assert row * cols <= (rows - 1) * cols;
  }

  /** A disc's reach along an axis covers any point of it (a disc that has points has a radius). */
  lemma ReachOfDisc(sqrt: real -> real, c: Circle, p: Vec)
    requires IsSqrt(sqrt) && Contains(c, p)
    ensures c.at.x - sqrt(c.r2) <= p.x <= c.at.x + sqrt(c.r2)
    ensures c.at.y - sqrt(c.r2) <= p.y <= c.at.y + sqrt(c.r2)
  {
    SumOfSquares(p.x - c.at.x, p.y - c.at.y);
    SideOfDisc(p.x - c.at.x, p.y - c.at.y, c.r2, sqrt(c.r2));
    SideOfDisc(p.y - c.at.y, p.x - c.at.x, c.r2, sqrt(c.r2));
  }

  lemma SideOfDisc(u: real, v: real, r2: real, r: real)
    requires u * u + v * v <= r2 && 0.0 <= r && r * r == r2
    ensures -r <= u <= r
  {
    var a := if u < 0.0 then -u else u;
    assert a * a == u * u;
    SumOfSquares(v, 0.0);
    SquareOrder(a, r);
  }

  lemma SumOfSquares(u: real, v: real)
    ensures 0.0 <= u * u && 0.0 <= v * v && 0.0 <= u * u + v * v
  {
  }

  /** The grid: which discs touch which cell. */
  class SpatialIndex {
    const xs: Axis
    const ys: Axis
    var cells: seq<seq<int>>

    ghost predicate Valid(n: nat)
      reads this
    {
      && 0.0 < xs.d && 0.0 < ys.d && 0 < xs.n && 0 < ys.n && |cells| == xs.n * ys.n
      && forall k, i {:trigger cells[k][i]} | 0 <= k < |cells| && 0 <= i < |cells[k]| :: 0 <= cells[k][i] < n
    }

    ghost predicate Indexes(sqrt: real -> real, circles: seq<Circle>)
      reads this
    {
      Valid(|circles|) && forall i {:trigger circles[i]} | 0 <= i < |circles| ::
          Files(xs, ys, cells, sqrt, i, circles[i])
    }

    constructor (xs: Axis, ys: Axis)
      requires 0.0 < xs.d && 0.0 < ys.d && 0 < xs.n && 0 < ys.n
      ensures this.xs == xs && this.ys == ys && Valid(0)
    {
      this.xs, this.ys := xs, ys;
      assert 0 <= xs.n * ys.n by { SlotInRange(0, 0, xs.n, ys.n); }
      cells := seq(xs.n * ys.n, k => []);
    }

    /** Disc i is added to the cells of one column. */
    method ListColumn(i: nat, col: int, r0: int, r1: int)
      requires Valid(i + 1) && 0 <= col < xs.n && 0 <= r0 && r1 < ys.n
      modifies this`cells
      ensures Valid(i + 1) && Grew(old(cells), cells)
      ensures forall row {:trigger ListsAt(cells, xs.n, i, col, row)} | r0 <= row <= r1 ::
          ListsAt(cells, xs.n, i, col, row)
    {
      var row := r0;
      while row <= r1
        invariant r0 <= row && Valid(i + 1) && Grew(old(cells), cells)
        invariant forall r {:trigger ListsAt(cells, xs.n, i, col, r)} | r0 <= r <= r1 && r < row :: ListsAt(cells, xs.n,
            i, col, r)
        decreases r1 - row
      {
        SlotInRange(col, row, xs.n, ys.n);
        ghost var before := cells;
        var k := col + row * xs.n;
        cells := cells[k := cells[k] + [i]];
        forall r | r0 <= r < row
          ensures ListsAt(cells, xs.n, i, col, r)
        {
          GrowingKeepsLists(before, cells, xs.n, i, col, r);
        }
        row := row + 1;
      }
    }

    /** Disc i is added to every cell from (c0, r0) to (c1, r1). */
    method List(i: nat, c0: int, c1: int, r0: int, r1: int)
      requires Valid(i) && 0 <= c0 && c1 < xs.n && 0 <= r0 && r1 < ys.n
      modifies this`cells
      ensures Valid(i + 1) && Grew(old(cells), cells) && Listed(xs, ys, cells, i, c0, c1, r0, r1)
    {
      var col := c0;
      while col <= c1
        invariant c0 <= col && (col <= c1 + 1 || col == c0)
        invariant Valid(i + 1) && Grew(old(cells), cells) && Listed(xs, ys, cells, i, c0, col - 1, r0, r1)
        decreases c1 - col
      {
        ghost var before := cells;
        ListColumn(i, col, r0, r1);
        forall c, r | c0 <= c < col && r0 <= r <= r1
          ensures ListsAt(cells, xs.n, i, c, r)
        {
          GrowingKeepsLists(before, cells, xs.n, i, c, r);
        }
        col := col + 1;
      }
    }

    /** The loop body of newSpatialIndex: disc i goes wherever its bounding box reaches. */
    method AddCircle(sqrt: real -> real, i: nat, c: Circle)
      requires Valid(i) && IsSqrt(sqrt) && 0.0 <= c.r2
      requires xs.lo <= c.at.x - sqrt(c.r2) && ys.lo <= c.at.y - sqrt(c.r2)
      requires xs.Reaches(c.at.x + sqrt(c.r2)) && ys.Reaches(c.at.y + sqrt(c.r2))
      modifies this`cells
      ensures Valid(i + 1) && Grew(old(cells), cells) && Files(xs, ys, cells, sqrt, i, c)
    {
      var r := sqrt(c.r2);
      xs.CellsAscend(c.at.x - r, c.at.x + r);
      ys.CellsAscend(c.at.y - r, c.at.y + r);
      var c0, c1 := xs.Cell(c.at.x - r), xs.Cell(c.at.x + r);
      var r0, r1 := ys.Cell(c.at.y - r), ys.Cell(c.at.y + r);
      List(i, if c0 < 0 then 0 else c0, if c1 >= xs.n then xs.n - 1 else c1,
           if r0 < 0 then 0 else r0, if r1 >= ys.n then ys.n - 1 else r1);
    }

    /** The last loop of newSpatialIndex. */
    method AddAll(sqrt: real -> real, circles: seq<Circle>, ghost box: Box)
      requires Valid(0) && IsSqrt(sqrt) && xs.lo == box.lo.x && ys.lo == box.lo.y && xs.Reaches(box.hi.x)
      requires ys.Reaches(box.hi.y)
      requires forall i {:trigger circles[i]} | 0 <= i < |circles| ::
          0.0 <= circles[i].r2 && box.Spans(LowCorner(sqrt, circles[i]), HighCorner(sqrt, circles[i]))
      modifies this`cells
      ensures Indexes(sqrt, circles)
    {
      for i := 0 to |circles|
        invariant Valid(i)
        invariant forall k {:trigger circles[k]} | 0 <= k < i :: Files(xs, ys, cells, sqrt, k, circles[k])
      {
        ghost var before := cells;
        ReachesLess(box, LowCorner(sqrt, circles[i]), HighCorner(sqrt, circles[i]));
        AddCircle(sqrt, i, circles[i]);
        forall k | 0 <= k < i
          ensures Files(xs, ys, cells, sqrt, k, circles[k])
        {
          StaysFiled(xs, ys, before, cells, sqrt, k, circles[k]);
        }
      }
    }

    /** The grid reaches as far as the box around everything does, and so around everything in it. */
    lemma ReachesLess(box: Box, a: Vec, b: Vec)
      requires xs.lo == box.lo.x && ys.lo == box.lo.y && xs.Reaches(box.hi.x) && ys.Reaches(box.hi.y)
      requires box.Spans(a, b) && a.x <= b.x && a.y <= b.y
      ensures xs.Reaches(b.x) && ys.Reaches(b.y)
    {
      xs.CellsAscend(b.x, box.hi.x);
      ys.CellsAscend(b.y, box.hi.y);
    }

    /** No disc listed in cell (col, row), if there is one, contains p. */
    ghost predicate Clear(circles: seq<Circle>, p: Vec, col: int, row: int)
      reads this
    {
      0 <= col < xs.n && 0 <= row < ys.n ==>
        forall i | 0 <= i < |circles| && ListsAt(cells, xs.n, i, col, row) :: !Contains(circles[i], p)
    }

    /** The same for the cell at some offset from p's own. */
    ghost predicate ClearNear(circles: seq<Circle>, p: Vec, dc: int, dr: int)
      reads this
      requires 0.0 < xs.d && 0.0 < ys.d
    {
      Clear(circles, p, xs.Cell(p.x) + dc, ys.Cell(p.y) + dr)
    }

    /** The innermost loop of `within`, over the discs listed in one cell. */
    method SearchCell(p: Vec, circles: seq<Circle>, c: int, r: int) returns (found: bool)
      requires Valid(|circles|)
      ensures found ==> Inside(circles, p)
      ensures !found ==> Clear(circles, p, c, r)
    {
      found := false;
      if c < 0 || r < 0 || c >= xs.n || r >= ys.n {
        return;
      }
      SlotInRange(c, r, xs.n, ys.n);
      var cell := cells[c + r * xs.n];
      for j := 0 to |cell|
        invariant forall k {:trigger cell[k]} | 0 <= k < j :: !Contains(circles[cell[k]], p)
      {
        assert cell[j] == cells[c + r * xs.n][j];
        if Contains(circles[cell[j]], p) {
          return true;
        }
      }
    }

    /** The loop of `within` over the rows of one column. */
    method SearchColumn(p: Vec, circles: seq<Circle>, dc: int) returns (found: bool)
      requires Valid(|circles|)
      ensures found ==> Inside(circles, p)
      ensures !found ==> forall b {:trigger ClearNear(circles, p, dc, b)} | -1 <= b < 2 :: ClearNear(circles, p, dc, b)
    {
      for dr := -1 to 2
        invariant forall b {:trigger ClearNear(circles, p, dc, b)} | -1 <= b < dr :: ClearNear(circles, p, dc, b)
      {
        found := SearchCell(p, circles, xs.Cell(p.x) + dc, ys.Cell(p.y) + dr);
        if found {
          return;
        }
        assert ClearNear(circles, p, dc, dr);
      }
      found := false;
    }

    /** within: p lies in some disc exactly when it lies in one listed in its own cell or a cell
        next to it. */
    method Within(p: Vec, circles: seq<Circle>, ghost sqrt: real -> real) returns (found: bool)
      requires IsSqrt(sqrt) && Indexes(sqrt, circles)
      ensures found <==> Inside(circles, p)
    {
      for dc := -1 to 2
        invariant dc > 0 ==> ClearNear(circles, p, 0, 0)
      {
        found := SearchColumn(p, circles, dc);
        if found {
          return;
        }
      }
      found := false;
      ClearMeansOutside(sqrt, circles, p);
    }

    /** A disc that contains p is listed in p's own cell. */
    lemma OwnCellLists(sqrt: real -> real, circles: seq<Circle>, p: Vec, i: int)
      requires IsSqrt(sqrt) && Indexes(sqrt, circles) && 0 <= i < |circles| && Contains(circles[i], p)
      ensures 0 <= xs.Cell(p.x) < xs.n && 0 <= ys.Cell(p.y) < ys.n
      ensures ListsAt(cells, xs.n, i, xs.Cell(p.x), ys.Cell(p.y))
    {
      var c := circles[i];
      var r := sqrt(c.r2);
      assert Files(xs, ys, cells, sqrt, i, c);
      ReachOfDisc(sqrt, c, p);
      xs.CellsAscend(c.at.x - r, p.x);
      xs.CellsAscend(p.x, c.at.x + r);
      ys.CellsAscend(c.at.y - r, p.y);
      ys.CellsAscend(p.y, c.at.y + r);
    }

    /** If no disc listed in the point's own cell contains it, no disc does. */
    lemma ClearMeansOutside(sqrt: real -> real, circles: seq<Circle>, p: Vec)
      requires IsSqrt(sqrt) && Indexes(sqrt, circles) && ClearNear(circles, p, 0, 0)
      ensures !Inside(circles, p)
    {
      forall i | 0 <= i < |circles| && Contains(circles[i], p)
        ensures false
      {
        OwnCellLists(sqrt, circles, p, i);
      }
    }
  }

  /** Disc i is listed in cell (col, row) of a grid with `cols` columns. */
  ghost predicate ListsAt(cells: seq<seq<int>>, cols: int, i: int, col: int, row: int) {
    0 <= col + row * cols < |cells| && i in cells[col + row * cols]
  }

  /** Disc i is listed in every cell from (c0, r0) to (c1, r1). */
  ghost predicate Listed(xs: Axis, ys: Axis, cells: seq<seq<int>>, i: int, c0: int, c1: int, r0: int, r1: int) {
    forall col, row {:trigger ListsAt(cells, xs.n, i, col, row)} |
      0 <= c0 <= col <= c1 < xs.n && 0 <= r0 <= row <= r1 < ys.n :: ListsAt(cells, xs.n, i, col, row)
  }

  /** Disc i is listed wherever its bounding box reaches, and the grid reaches that far. */
  ghost predicate Files(xs: Axis, ys: Axis, cells: seq<seq<int>>, sqrt: real -> real, i: int, c: Circle)
    requires 0.0 < xs.d && 0.0 < ys.d
  {
    var r := sqrt(c.r2);
    && xs.lo <= c.at.x - r && ys.lo <= c.at.y - r && xs.Reaches(c.at.x + r) && ys.Reaches(c.at.y + r)
    && Listed(xs, ys, cells, i, xs.Cell(c.at.x - r), xs.Cell(c.at.x + r), ys.Cell(c.at.y - r), ys.Cell(c.at.y + r))
  }

  /** What was filed stays filed while cells only grow. */
  lemma StaysFiled(xs: Axis, ys: Axis, before: seq<seq<int>>, after: seq<seq<int>>, sqrt: real -> real, i: int,
      c: Circle)
    requires 0.0 < xs.d && 0.0 < ys.d && Files(xs, ys, before, sqrt, i, c) && Grew(before, after)
    ensures Files(xs, ys, after, sqrt, i, c)
  {
    var r := sqrt(c.r2);
    forall col, row | 0 <= xs.Cell(c.at.x - r) <= col <= xs.Cell(c.at.x + r) < xs.n
                   && 0 <= ys.Cell(c.at.y - r) <= row <= ys.Cell(c.at.y + r) < ys.n
      ensures ListsAt(after, xs.n, i, col, row)
    {
      GrowingKeepsLists(before, after, xs.n, i, col, row);
    }
  }

  lemma GrowingKeepsLists(before: seq<seq<int>>, after: seq<seq<int>>, cols: int, i: int, col: int, row: int)
    requires Grew(before, after) && ListsAt(before, cols, i, col, row)
    ensures ListsAt(after, cols, i, col, row)
  {
    var k := col + row * cols;
    var j :| 0 <= j < |before[k]| && before[k][j] == i;
    assert after[k][j] == i;
  }

  /** Nothing is taken out of any cell. */
  ghost predicate Grew(before: seq<seq<int>>, after: seq<seq<int>>) {
    |before| == |after| && forall k {:trigger after[k]} {:trigger before[k]} | 0 <= k < |before| ::
        before[k] <= after[k]
  }

  /** The box from lo to hi. */
  datatype Box = Box(lo: Vec, hi: Vec)
  {
    predicate Spans(a: Vec, b: Vec) {
      lo.x <= a.x && lo.y <= a.y && b.x <= hi.x && b.y <= hi.y
    }

    /** The least box around this one and the one from a to b. */
    function Around(a: Vec, b: Vec): (o: Box)
      ensures o.Spans(a, b) && o.Spans(lo, hi)
    {
      Box(Vec(if a.x < lo.x then a.x else lo.x, if a.y < lo.y then a.y else lo.y),
          Vec(if b.x > hi.x then b.x else hi.x, if b.y > hi.y then b.y else hi.y))
    }
  }

  function LowCorner(sqrt: real -> real, c: Circle): Vec {
    Vec(c.at.x - sqrt(c.r2), c.at.y - sqrt(c.r2))
  }

  function HighCorner(sqrt: real -> real, c: Circle): Vec {
    Vec(c.at.x + sqrt(c.r2), c.at.y + sqrt(c.r2))
  }

  /** The first two loops of newSpatialIndex: a box around all discs and points, and the largest
      radius. */
  method Bounds(sqrt: real -> real, circles: seq<Circle>, points: seq<Vec>) returns (box: Box, maxR: real)
    ensures forall i {:trigger circles[i]} | 0 <= i < |circles| ::
        box.Spans(LowCorner(sqrt, circles[i]), HighCorner(sqrt, circles[i]))
  {
    box, maxR := Box(Vec(MAX_FLOAT, MAX_FLOAT), Vec(-MAX_FLOAT, -MAX_FLOAT)), 0.0;
    for i := 0 to |circles|
      invariant forall k {:trigger circles[k]} | 0 <= k < i ::
          box.Spans(LowCorner(sqrt, circles[k]), HighCorner(sqrt, circles[k]))
    {
      var r := sqrt(circles[i].r2);
      if r > maxR {
        maxR := r;
      }
      box := box.Around(LowCorner(sqrt, circles[i]), HighCorner(sqrt, circles[i]));
    }
    for j := 0 to |points|
      invariant forall k {:trigger circles[k]} | 0 <= k < |circles| ::
          box.Spans(LowCorner(sqrt, circles[k]), HighCorner(sqrt, circles[k]))
    {
      box := box.Around(points[j], points[j]);
    }
  }

  /** newSpatialIndex: no index for no discs; otherwise one that files every disc wherever its
      bounding box reaches, with all cells in bounds. */
  method NewSpatialIndex(sqrt: real -> real, circles: seq<Circle>, points: seq<Vec>) returns (idx: SpatialIndex?)
    requires IsSqrt(sqrt) && forall i {:trigger circles[i]} | 0 <= i < |circles| :: 0.0 <= circles[i].r2
    ensures circles == [] ==> idx == null
    ensures idx == null ==> circles == [] || points == []
    ensures idx != null ==> fresh(idx) && idx.Indexes(sqrt, circles)
  {
    idx := null;
    if |circles| == 0 {
      return;
    }
    var box, maxR := Bounds(sqrt, circles, points);
    if |points| == 0 && box.lo.x == MAX_FLOAT {
      return;
    }
    var cellSize := if maxR < 1.0 then 1.0 else maxR;
    var grid := new SpatialIndex(AxisFor(box.lo.x, box.hi.x, cellSize), AxisFor(box.lo.y, box.hi.y, cellSize));
    grid.AddAll(sqrt, circles, box);
    idx := grid;
  }
}
