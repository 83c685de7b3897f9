/**
 The cell grid of BaseConnectionManager: how many cells a playground gets, which cell a position is in,
 which cells are searched around it, and when that search is wide enough. Doubles are exact reals here.
 */
module GridGeometry {

  datatype Coord = Coord(x: real, y: real, z: real)

  datatype Cell = Cell(x: int, y: int, z: int)

  const EPSILON: real := 0.001

  /** static_cast<int> of a double. */
  function Trunc(r: real): int {
    if r >= 0.0 then r.Floor else -((-r).Floor)
  }

  /** The parameters of the manager: playground, interference distance, torus or not. */
  datatype World = World(size: Coord, maxDistance: real, torus: bool)

  ghost predicate ValidWorld(w: World) {
    w.maxDistance > 0.0 && w.size.x >= 0.0 && w.size.y >= 0.0 && w.size.z >= 0.0
  }

  // ---- Setup, as in initialize ----

  function RawCells(size: real, maxDistance: real): int
    requires maxDistance > 0.0
  {
    Trunc(size / maxDistance)
  }

  function GridDim(w: World): (d: Cell)
    requires ValidWorld(w)
    ensures d.x >= 1 && d.y >= 1 && d.z >= 1
  {
    var x, y, z := RawCells(w.size.x, w.maxDistance), RawCells(w.size.y, w.maxDistance), RawCells(w.size.z, w.maxDistance);
    if x <= 3 && y <= 3 && z <= 3 then Cell(1, 1, 1)
    else Cell(if x > 1 then x else 1, if y > 1 then y else 1, if z > 1 then z else 1)
  }

  /** Width of a cell on an axis of `n` cells, padded so that the upper border falls into the last cell. */
  function CellWidth(size: real, n: int, maxDistance: real): (d: real)
    requires n >= 1 && maxDistance > 0.0 && size >= 0.0
    ensures d > 0.0
  {
    (if n != 1 then Quotient(size, n) else if size > maxDistance then size else maxDistance) + EPSILON
  }

  function Quotient(size: real, n: int): (q: real)
    requires n >= 1 && size >= 0.0
    ensures q >= 0.0 && q * n as real == size
  {
    size / n as real
  }

  function FindDistance(w: World): (d: Coord)
    requires ValidWorld(w)
    ensures d.x > 0.0 && d.y > 0.0 && d.z > 0.0
  {
    var dim := GridDim(w);
    Coord(CellWidth(w.size.x, dim.x, w.maxDistance),
          CellWidth(w.size.y, dim.y, w.maxDistance),
          CellWidth(w.size.z, dim.z, w.maxDistance))
  }

  function AxisCell(p: real, width: real): int
    requires width > 0.0
  {
    Trunc(p / width)
  }

  function CellOf(w: World, p: Coord): Cell
    requires ValidWorld(w)
  {
    var d := FindDistance(w);
    Cell(AxisCell(p.x, d.x), AxisCell(p.y, d.y), AxisCell(p.z, d.z))
  }

  /** The last assertions of initialize: the far corner of the playground lies in the last cell. */
  ghost predicate GridFits(w: World)
    requires ValidWorld(w)
  {
    var dim := GridDim(w);
    CellOf(w, w.size) == Cell(dim.x - 1, dim.y - 1, dim.z - 1)
  }

  predicate InPlayground(w: World, p: Coord) {
    0.0 <= p.x <= w.size.x && 0.0 <= p.y <= w.size.y && 0.0 <= p.z <= w.size.z
  }

  // ---- Range ----

  function Abs(r: real): real {
    if r < 0.0 then -r else r
  }

  function Modulo(a: real, n: real): real
    requires n > 0.0
  {
    a - n * (a / n).Floor as real
  }

  /** Distance along one axis of a torus. The program asserts a positive size where it divides. */
  function TorusAxis(a: real, b: real, size: real): real {
    var difference := Abs(a - b);
    if difference == 0.0 || size <= 0.0 then 0.0
    else
      var d := Modulo(difference, size);
      if d < size - d then d else size - d
  }

  function SquaredDistance(w: World, a: Coord, b: Coord): real {
    if w.torus then
      var x, y, z := TorusAxis(a.x, b.x, w.size.x), TorusAxis(a.y, b.y, w.size.y), TorusAxis(a.z, b.z, w.size.z);
      x * x + y * y + z * z
    else
      (a.x - b.x) * (a.x - b.x) + (a.y - b.y) * (a.y - b.y) + (a.z - b.z) * (a.z - b.z)
  }

  predicate InRange(w: World, a: Coord, b: Coord) {
    SquaredDistance(w, a, b) <= w.maxDistance * w.maxDistance
  }

  // ---- Neighbour cells ----

  /** wrapIfTorus: the cell index `value`, wrapped on a torus, or -1 outside the grid. */
  function WrapIfTorus(value: int, max: int, torus: bool): int {
    if value < 0 then (if torus then max + value else -1)
    else if value >= max then (if torus then value - max else -1)
    else value
  }

  /** Indices reached from `i` by one step or none along an axis of `n` cells. */
  function AxisNear(i: int, n: int, torus: bool): set<int> {
    set k | k in {i - 1, i, i + 1} && WrapIfTorus(k, n, torus) != -1 :: WrapIfTorus(k, n, torus)
  }

  function Neighbours(dim: Cell, torus: bool, c: Cell): set<Cell> {
    set x, y, z | x in AxisNear(c.x, dim.x, torus) && y in AxisNear(c.y, dim.y, torus) && z in AxisNear(c.z, dim.z, torus)
      :: Cell(x, y, z)
  }

  predicate InGrid(dim: Cell, c: Cell) {
    0 <= c.x < dim.x && 0 <= c.y < dim.y && 0 <= c.z < dim.z
  }

  /** All pairs in range are in neighbouring cells: the grid search misses no one. */
  ghost predicate Covers(w: World)
    requires ValidWorld(w)
  {
    forall a, b :: InPlayground(w, a) && InPlayground(w, b) && InRange(w, a, b) ==>
      CellOf(w, b) in Neighbours(GridDim(w), w.torus, CellOf(w, a))
  }

  /** The padding shrinks the last cell by (n - 1) epsilon. It must still be as wide as the range. */
  predicate AxisSlack(size: real, n: int, maxDistance: real)
    requires n >= 1 && size >= 0.0
  {
    n <= 3 || Quotient(size, n) >= maxDistance + (n - 1) as real * EPSILON
  }

  predicate Slack(w: World)
    requires ValidWorld(w)
  {
    var dim := GridDim(w);
    && AxisSlack(w.size.x, dim.x, w.maxDistance)
    && AxisSlack(w.size.y, dim.y, w.maxDistance)
    && AxisSlack(w.size.z, dim.z, w.maxDistance)
  }

  // ---- One axis ----

  lemma DivideBounds(p: real, width: real)
    requires width > 0.0 && p >= 0.0
    ensures var i := AxisCell(p, width);
      0 <= i && i as real * width <= p < i as real * width + width
  {
    var q := p / width;
    var low := q.Floor as real;
    assert AxisCell(p, width) == q.Floor;
    TimesAtMost(p, q, low, width);
    TimesAbove(p, q, low + 1.0, width);
  }

  lemma TimesAtMost(p: real, q: real, low: real, width: real)
    requires width > 0.0 && low <= q && q * width == p
    ensures low * width <= p
  {
    assert (q - low) * width >= 0.0;
  }

  lemma TimesAbove(p: real, q: real, high: real, width: real)
    requires width > 0.0 && q < high && q * width == p
    ensures p < high * width
  {
    assert (high - q) * width > 0.0;
  }

  lemma MulOrder(a: real, b: real, c: real)
    requires a <= b && 0.0 <= c
    ensures a * c <= b * c
  {
    assert (b - a) * c >= 0.0;
  }

  lemma MulStrict(a: real, b: real, c: real)
    requires a < b && 0.0 < c
    ensures a * c < b * c
  {
    assert (b - a) * c > 0.0;
  }

  /** The index of a position is its cell: at least `k` exactly from `k` widths on. */
  lemma CellAtLeast(p: real, width: real, k: nat)
    requires width > 0.0 && p >= 0.0
    ensures AxisCell(p, width) >= k <==> k as real * width <= p
  {
    hide AxisCell;
    DivideBounds(p, width);
    var i := AxisCell(p, width);
    if i >= k {
      MultipleReached(k as real, i as real, p, width);
    } else {
      MultipleMissed(k as real, i as real, p, width);
    }
  }

  lemma MultipleReached(k: real, low: real, p: real, width: real)
    requires width > 0.0 && k <= low && low * width <= p
    ensures k * width <= p
  {
    assert (low - k) * width >= 0.0;
  }

  lemma MultipleMissed(k: real, low: real, p: real, width: real)
    requires width > 0.0 && low + 1.0 <= k && p < low * width + width
    ensures p < k * width
  {
    MulOrder(low + 1.0, k, width);
  }

  lemma NextMultiple(i: int, width: real)
    ensures (i + 1) as real * width == i as real * width + width
  {
    var r := i as real;
    assert (i + 1) as real == r + 1.0;
  }

  /** Positions no farther apart than a cell is wide are in the same cell or in adjacent ones. */
  lemma CloseIsAdjacent(p: real, q: real, width: real)
    requires width > 0.0 && 0.0 <= p <= q <= p + width
    ensures AxisCell(p, width) <= AxisCell(q, width) <= AxisCell(p, width) + 1
  {
    var i := AxisCell(p, width);
    DivideBounds(p, width);
    CellAtLeast(q, width, i);
    CellAtLeast(q, width, i + 2);
    NextMultiple(i, width);
    NextMultiple(i + 1, width);
  }

  ghost predicate AxisOk(size: real, n: int, maxDistance: real) {
    && size >= 0.0 && maxDistance > 0.0 && n >= 1
    && (n > 1 ==> n as real * maxDistance <= size)
    && AxisCell(size, CellWidth(size, n, maxDistance)) == n - 1
  }

  /** A cell is wider than the interference distance. */
  lemma WideEnough(size: real, n: int, maxDistance: real)
    requires AxisOk(size, n, maxDistance)
    ensures CellWidth(size, n, maxDistance) >= maxDistance + EPSILON
  {
    if n > 1 {
      var q := Quotient(size, n);
      if q < maxDistance {
        MulStrict(q, maxDistance, n as real);
      }
    }
  }

  lemma InsideAxis(size: real, n: int, maxDistance: real, p: real)
    requires AxisOk(size, n, maxDistance) && 0.0 <= p <= size
    ensures 0 <= AxisCell(p, CellWidth(size, n, maxDistance)) < n
  {
    var width := CellWidth(size, n, maxDistance);
    DivideBounds(p, width);
    CellAtLeast(p, width, n);
    CellAtLeast(size, width, n);
  }

  lemma AdjacentIsNear(i: int, j: int, n: int, torus: bool)
    requires 0 <= i < n && 0 <= j < n && i - 1 <= j <= i + 1
    ensures j in AxisNear(i, n, torus)
  {
    assert WrapIfTorus(j, n, torus) == j;
  }

  /** On a torus of at most three cells every cell is next to every other. */
  lemma SmallTorusIsNear(i: int, j: int, n: int)
    requires 0 <= i < n <= 3 && 0 <= j < n
    ensures j in AxisNear(i, n, true)
  {
    var k := if i - 1 <= j <= i + 1 then j else if j < i then j + n else j - n;
    assert WrapIfTorus(k, n, true) == j;
  }

  lemma EndsAreNear(n: int)
    requires n >= 1
    ensures n - 1 in AxisNear(0, n, true) && 0 in AxisNear(n - 1, n, true)
  {
    assert WrapIfTorus(-1, n, true) == n - 1 && WrapIfTorus(n, n, true) == 0;
  }

  lemma CloseIsNear(size: real, n: int, maxDistance: real, p: real, q: real, torus: bool)
    requires AxisOk(size, n, maxDistance) && 0.0 <= p <= size && 0.0 <= q <= size && Abs(p - q) <= maxDistance
    ensures var width := CellWidth(size, n, maxDistance);
      AxisCell(q, width) in AxisNear(AxisCell(p, width), n, torus)
  {
    hide AxisCell, CellWidth, AxisNear;
    var width := CellWidth(size, n, maxDistance);
    WideEnough(size, n, maxDistance);
    InsideAxis(size, n, maxDistance, p);
    InsideAxis(size, n, maxDistance, q);
    if p <= q {
      CloseIsAdjacent(p, q, width);
    } else {
      CloseIsAdjacent(q, p, width);
    }
    AdjacentIsNear(AxisCell(p, width), AxisCell(q, width), n, torus);
  }

  /** Start of the last cell. */
  lemma LastCellStart(size: real, n: int, maxDistance: real)
    requires size >= 0.0 && maxDistance > 0.0 && n > 1
    ensures (n - 1) as real * CellWidth(size, n, maxDistance)
         == size - Quotient(size, n) + (n - 1) as real * EPSILON
  {
    var q, m := Quotient(size, n), (n - 1) as real;
    assert n as real == m + 1.0;
    assert m * (q + EPSILON) == m * q + m * EPSILON;
    assert (m + 1.0) * q == m * q + q;
  }

  lemma TorusAxisIsShorterWay(p: real, q: real, size: real)
    requires 0.0 <= p <= size && 0.0 <= q <= size
    ensures var d := Abs(p - q);
      TorusAxis(p, q, size) == if d <= size - d then d else size - d
  {
    var d := Abs(p - q);
    if d > 0.0 {
      RatioFloor(d, d / size, size);
    }
  }

  lemma RatioFloor(d: real, r: real, size: real)
    requires 0.0 < d <= size && r * size == d
    ensures r.Floor == if d < size then 0 else 1
  {
    assert r > 0.0 by {
      if r <= 0.0 { MulOrder(r, 0.0, size); }
    }
    assert r <= 1.0 by {
      if r > 1.0 { MulStrict(1.0, r, size); }
    }
    assert r < 1.0 <==> d < size by {
      if r < 1.0 { MulStrict(r, 1.0, size); }
    }
  }

  /** Two positions close to each other across the border: with enough slack, one is in the first cell and
      the other in the last. */
  lemma AcrossIsNear(size: real, n: int, maxDistance: real, p: real, q: real)
    requires AxisOk(size, n, maxDistance) && n > 3 && AxisSlack(size, n, maxDistance)
    requires 0.0 <= p <= q <= size && size - (q - p) <= maxDistance
    ensures var width := CellWidth(size, n, maxDistance);
      AxisCell(p, width) == 0 && AxisCell(q, width) == n - 1
  {
    hide AxisCell, CellWidth;
    var width := CellWidth(size, n, maxDistance);
    WideEnough(size, n, maxDistance);
    InsideAxis(size, n, maxDistance, p);
    InsideAxis(size, n, maxDistance, q);
    LastCellStart(size, n, maxDistance);
    CellAtLeast(p, width, 1);
    CellAtLeast(q, width, n - 1);
  }

  lemma TorusCloseIsNear(size: real, n: int, maxDistance: real, p: real, q: real)
    requires AxisOk(size, n, maxDistance) && AxisSlack(size, n, maxDistance)
    requires 0.0 <= p <= size && 0.0 <= q <= size && TorusAxis(p, q, size) <= maxDistance
    ensures var width := CellWidth(size, n, maxDistance);
      AxisCell(q, width) in AxisNear(AxisCell(p, width), n, true)
  {
    hide AxisCell, CellWidth, AxisNear, TorusAxis;
    var width := CellWidth(size, n, maxDistance);
    TorusAxisIsShorterWay(p, q, size);
    InsideAxis(size, n, maxDistance, p);
    InsideAxis(size, n, maxDistance, q);
    if Abs(p - q) <= maxDistance {
      CloseIsNear(size, n, maxDistance, p, q, true);
    } else if n <= 3 {
      SmallTorusIsNear(AxisCell(p, width), AxisCell(q, width), n);
    } else {
      EndsAreNear(n);
      if p <= q {
        AcrossIsNear(size, n, maxDistance, p, q);
      } else {
        AcrossIsNear(size, n, maxDistance, q, p);
      }
    }
  }

  /** Without the slack a position at the origin and one within range of it across the border lie in
      cells that are not next to each other. */
  lemma GapAcrossBorder(size: real, n: int, maxDistance: real)
    requires AxisOk(size, n, maxDistance) && !AxisSlack(size, n, maxDistance)
    ensures 0.0 <= size - maxDistance <= size && TorusAxis(0.0, size - maxDistance, size) <= maxDistance
    ensures var width := CellWidth(size, n, maxDistance);
      AxisCell(size - maxDistance, width) !in AxisNear(AxisCell(0.0, width), n, true)
  {
    var width, far := CellWidth(size, n, maxDistance), size - maxDistance;
    var q := Quotient(size, n);
    MulOrder(4.0, n as real, maxDistance);
    assert 4.0 * maxDistance <= size;
    TorusAxisIsShorterWay(0.0, far, size);
    hide AxisCell, TorusAxis;
    CellAtLeast(0.0, width, 1);
    CellAtLeast(far, width, n - 1);
    CellAtLeast(far, width, 2);
    CellAtLeast(size, width, n - 1);
    DivideBounds(0.0, width);
    LastCellStart(size, n, maxDistance);
    PaddingIsSmall(size, n, maxDistance);
  }

  lemma PaddingIsSmall(size: real, n: int, maxDistance: real)
    requires AxisOk(size, n, maxDistance) && n > 3
    ensures 2.0 * CellWidth(size, n, maxDistance) <= size - maxDistance
  {
    var width, q := CellWidth(size, n, maxDistance), Quotient(size, n);
    hide AxisCell;
    CellAtLeast(size, width, n - 1);
    LastCellStart(size, n, maxDistance);
    MulOrder(3.0, (n - 1) as real, EPSILON);
    assert q >= 3.0 * EPSILON;
    MulOrder(4.0, n as real, maxDistance);
    FourTimes(n, q, size);
    assert size >= 4.0 * q && size >= 4.0 * maxDistance;
  }

  lemma FourTimes(n: int, q: real, size: real)
    requires n > 3 && q >= 0.0 && q * n as real == size
    ensures size >= 4.0 * q
  {
    MulOrder(4.0, n as real, q);
  }

  // ---- Three axes ----

  lemma RawCellsFit(size: real, maxDistance: real)
    requires size >= 0.0 && maxDistance > 0.0
    ensures var n := RawCells(size, maxDistance);
      n > 1 ==> n as real * maxDistance <= size
  {
    var q := size / maxDistance;
    assert q * maxDistance == size;
    if q.Floor > 1 {
      MulOrder(q.Floor as real, q, maxDistance);
    }
  }

  lemma AxisOkOf(size: real, n: int, maxDistance: real)
    requires size >= 0.0 && maxDistance > 0.0 && n >= 1
    requires n == 1 || n == RawCells(size, maxDistance)
    requires AxisCell(size, CellWidth(size, n, maxDistance)) == n - 1
    ensures AxisOk(size, n, maxDistance)
  {
    RawCellsFit(size, maxDistance);
    hide AxisCell, CellWidth, RawCells;
  }

  lemma GridDimAxes(w: World)
    requires ValidWorld(w)
    ensures var dim := GridDim(w);
      && (dim.x == 1 || dim.x == RawCells(w.size.x, w.maxDistance))
      && (dim.y == 1 || dim.y == RawCells(w.size.y, w.maxDistance))
      && (dim.z == 1 || dim.z == RawCells(w.size.z, w.maxDistance))
  {
    hide RawCells;
  }

  lemma AxesOk(w: World)
    requires ValidWorld(w) && GridFits(w)
    ensures var dim := GridDim(w);
      && AxisOk(w.size.x, dim.x, w.maxDistance)
      && AxisOk(w.size.y, dim.y, w.maxDistance)
      && AxisOk(w.size.z, dim.z, w.maxDistance)
  {
    hide AxisCell, CellWidth, RawCells, GridDim, AxisOk;
    var dim := GridDim(w);
    GridDimAxes(w);
    AxisOkOf(w.size.x, dim.x, w.maxDistance);
    AxisOkOf(w.size.y, dim.y, w.maxDistance);
    AxisOkOf(w.size.z, dim.z, w.maxDistance);
  }

  lemma SquareAtMost(x: real, rest: real, d: real)
    requires x * x + rest <= d * d && rest >= 0.0 && d > 0.0
    ensures Abs(x) <= d
  {
    var a := Abs(x);
    assert a * a == x * x;
    if a > d {
      MulStrict(d, a, d);
      MulStrict(d, a, a);
    }
  }

  lemma SquareIsPositive(x: real)
    ensures x * x >= 0.0
  {
  }

  /** In range in space means close on every axis. */
  lemma InRangeOnEveryAxis(x: real, y: real, z: real, d: real)
    requires x * x + y * y + z * z <= d * d && d > 0.0
    ensures Abs(x) <= d && Abs(y) <= d && Abs(z) <= d
  {
    SquareIsPositive(x);
    SquareIsPositive(y);
    SquareIsPositive(z);
    SquareAtMost(x, y * y + z * z, d);
    SquareAtMost(y, x * x + z * z, d);
    SquareAtMost(z, x * x + y * y, d);
  }

  lemma TorusAxisNonNegative(p: real, q: real, size: real)
    requires 0.0 <= p <= size && 0.0 <= q <= size
    ensures TorusAxis(p, q, size) >= 0.0
  {
    TorusAxisIsShorterWay(p, q, size);
  }

  lemma RangeAxes(w: World, a: Coord, b: Coord)
    requires ValidWorld(w) && InRange(w, a, b)
    ensures if w.torus then
              && TorusAxis(a.x, b.x, w.size.x) <= w.maxDistance
              && TorusAxis(a.y, b.y, w.size.y) <= w.maxDistance
              && TorusAxis(a.z, b.z, w.size.z) <= w.maxDistance
            else
              && Abs(a.x - b.x) <= w.maxDistance && Abs(a.y - b.y) <= w.maxDistance && Abs(a.z - b.z) <= w.maxDistance
  {
    hide TorusAxis;
    if w.torus {
      var x, y, z := TorusAxis(a.x, b.x, w.size.x), TorusAxis(a.y, b.y, w.size.y), TorusAxis(a.z, b.z, w.size.z);
      InRangeOnEveryAxis(x, y, z, w.maxDistance);
      hide InRange;
    } else {
      InRangeOnEveryAxis(a.x - b.x, a.y - b.y, a.z - b.z, w.maxDistance);
      hide InRange;
    }
  }

  lemma AllAxesNear(w: World, a: Coord, b: Coord)
    requires ValidWorld(w) && GridFits(w) && (w.torus ==> Slack(w))
    requires InPlayground(w, a) && InPlayground(w, b) && InRange(w, a, b)
    ensures var (d, dim) := (FindDistance(w), GridDim(w));
      && AxisCell(b.x, d.x) in AxisNear(AxisCell(a.x, d.x), dim.x, w.torus)
      && AxisCell(b.y, d.y) in AxisNear(AxisCell(a.y, d.y), dim.y, w.torus)
      && AxisCell(b.z, d.z) in AxisNear(AxisCell(a.z, d.z), dim.z, w.torus)
  {
    hide AxisCell, CellWidth, AxisNear, TorusAxis, GridDim, AxisOk, AxisSlack, InRange, Abs, GridFits;
    var m, dim := w.maxDistance, GridDim(w);
    AxesOk(w);
    RangeAxes(w, a, b);
    if w.torus {
      TorusCloseIsNear(w.size.x, dim.x, m, a.x, b.x);
      TorusCloseIsNear(w.size.y, dim.y, m, a.y, b.y);
      TorusCloseIsNear(w.size.z, dim.z, m, a.z, b.z);
    } else {
      CloseIsNear(w.size.x, dim.x, m, a.x, b.x, false);
      CloseIsNear(w.size.y, dim.y, m, a.y, b.y, false);
      CloseIsNear(w.size.z, dim.z, m, a.z, b.z, false);
    }
  }

  lemma CoversIfSlack(w: World)
    requires ValidWorld(w) && GridFits(w) && (w.torus ==> Slack(w))
    ensures Covers(w)
  {
    hide AxisCell, CellWidth, AxisNear, InRange, GridDim, GridFits, Slack;
    forall a, b | InPlayground(w, a) && InPlayground(w, b) && InRange(w, a, b)
      ensures CellOf(w, b) in Neighbours(GridDim(w), w.torus, CellOf(w, a))
    {
      AllAxesNear(w, a, b);
    }
  }

  lemma TorusAxisOfSame(p: real, size: real)
    ensures TorusAxis(p, p, size) == 0.0
  {
  }

  lemma NeighboursByAxis(dim: Cell, torus: bool, c: Cell, e: Cell)
    requires e in Neighbours(dim, torus, c)
    ensures e.x in AxisNear(c.x, dim.x, torus) && e.y in AxisNear(c.y, dim.y, torus) && e.z in AxisNear(c.z, dim.z, torus)
  {
  }

  lemma InRangeOfOrigin(w: World, b: Coord)
    requires ValidWorld(w) && w.torus && InPlayground(w, b)
    requires (TorusAxis(0.0, b.x, w.size.x) <= w.maxDistance && b.y == b.z == 0.0)
          || (TorusAxis(0.0, b.y, w.size.y) <= w.maxDistance && b.x == b.z == 0.0)
          || (TorusAxis(0.0, b.z, w.size.z) <= w.maxDistance && b.x == b.y == 0.0)
    ensures InRange(w, Coord(0.0, 0.0, 0.0), b)
  {
    var x, y, z := TorusAxis(0.0, b.x, w.size.x), TorusAxis(0.0, b.y, w.size.y), TorusAxis(0.0, b.z, w.size.z);
    TorusAxisOfSame(0.0, w.size.x);
    TorusAxisOfSame(0.0, w.size.y);
    TorusAxisOfSame(0.0, w.size.z);
    TorusAxisNonNegative(0.0, b.x, w.size.x);
    TorusAxisNonNegative(0.0, b.y, w.size.y);
    TorusAxisNonNegative(0.0, b.z, w.size.z);
    hide TorusAxis;
    if y == 0.0 && z == 0.0 {
      SmallSquare(x, w.maxDistance);
    } else if x == 0.0 && z == 0.0 {
      SmallSquare(y, w.maxDistance);
    } else {
      SmallSquare(z, w.maxDistance);
    }
  }

  /** Without the slack there are two positions in range of each other that the grid search misses. */
  lemma MissedPair(w: World) returns (a: Coord, b: Coord)
    requires ValidWorld(w) && GridFits(w) && w.torus && !Slack(w)
    ensures InPlayground(w, a) && InPlayground(w, b) && InRange(w, a, b)
    ensures CellOf(w, b) !in Neighbours(GridDim(w), true, CellOf(w, a))
  {
    hide AxisCell, CellWidth, AxisNear, TorusAxis, GridDim, AxisOk, AxisSlack, Neighbours, InRange, GridFits;
    var m, dim := w.maxDistance, GridDim(w);
    AxesOk(w);
    a := Coord(0.0, 0.0, 0.0);
    if !AxisSlack(w.size.x, dim.x, m) {
      b := Coord(w.size.x - m, 0.0, 0.0);
      GapAcrossBorder(w.size.x, dim.x, m);
    } else if !AxisSlack(w.size.y, dim.y, m) {
      b := Coord(0.0, w.size.y - m, 0.0);
      GapAcrossBorder(w.size.y, dim.y, m);
    } else {
      b := Coord(0.0, 0.0, w.size.z - m);
      GapAcrossBorder(w.size.z, dim.z, m);
    }
    InRangeOfOrigin(w, b);
    if CellOf(w, b) in Neighbours(dim, true, CellOf(w, a)) {
      NeighboursByAxis(dim, true, CellOf(w, a), CellOf(w, b));
    }
  }

  lemma SmallSquare(x: real, d: real)
    requires x <= d && d > 0.0 && x >= 0.0
    ensures x * x <= d * d
  {
    MulOrder(x, d, x);
    MulOrder(x, d, d);
  }

  /** When the grid search sees every pair in range: always on a plain playground; on a torus exactly when
      each axis of more than three cells leaves the slack the padding takes from its last cell. */
  lemma CoversIffSlack(w: World)
    requires ValidWorld(w) && GridFits(w)
    ensures Covers(w) <==> (w.torus ==> Slack(w))
  {
    if w.torus ==> Slack(w) {
      CoversIfSlack(w);
    } else {
      var a, b := MissedPair(w);
    }
  }

  /** A playground that the range divides evenly has no slack: on a 4 km torus and 1 km of range, the NICs
      at 0 and at 3 km are in range across the border, but their cells 0 and 2 of 4 are not neighbours. */
  lemma MissedPairExample()
    ensures var w := World(Coord(4000.0, 4000.0, 0.0), 1000.0, true);
      var (a, b) := (Coord(0.0, 0.0, 0.0), Coord(3000.0, 0.0, 0.0));
      && ValidWorld(w) && GridFits(w) && GridDim(w) == Cell(4, 4, 1)
      && InPlayground(w, a) && InPlayground(w, b) && InRange(w, a, b)
      && CellOf(w, a) == Cell(0, 0, 0) && CellOf(w, b) == Cell(2, 0, 0)
      && CellOf(w, b) !in Neighbours(GridDim(w), true, CellOf(w, a))
  {
    var w := World(Coord(4000.0, 4000.0, 0.0), 1000.0, true);
    assert RawCells(4000.0, 1000.0) == 4 && RawCells(0.0, 1000.0) == 0;
    assert FindDistance(w) == Coord(1000.001, 1000.001, 1000.001);
    assert AxisCell(4000.0, 1000.001) == 3 && AxisCell(3000.0, 1000.001) == 2 && AxisCell(0.0, 1000.001) == 0;
    TorusAxisIsShorterWay(0.0, 3000.0, 4000.0);
    var b := Coord(3000.0, 0.0, 0.0);
    if CellOf(w, b) in Neighbours(GridDim(w), true, Cell(0, 0, 0)) {
      NeighboursByAxis(GridDim(w), true, Cell(0, 0, 0), CellOf(w, b));
    }
  }
}
