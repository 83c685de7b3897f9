/**
 What "in range" means, said without the program's formulas: on a plain playground the squares of the axis
 distances add up, and on a torus those of the shortest way around each axis do.
 */
module RangeGeometry {
  import opened GridGeometry

  /** The way from `q` to `p` along an axis that also goes `k` times around it. */
  function Way(p: real, q: real, k: int, size: real): real {
    p - q + k as real * size
  }

  // ---- One axis of a torus ----

  /** No way around is shorter than the distance on the torus, and some way is that long. */
  lemma TorusAxisLeast(p: real, q: real, size: real)
    requires size > 0.0
    ensures var t := TorusAxis(p, q, size);
      && t >= 0.0
      && (forall k: int :: Way(p, q, k, size) >= t || Way(p, q, k, size) <= -t)
      && exists k: int :: Way(p, q, k, size) == t || Way(p, q, k, size) == -t
  {
    if p >= q {
      ForwardLeast(p, q, size);
    } else {
      ForwardLeast(q, p, size);
      Turned(p, q, size);
      var t := TorusAxis(q, p, size);
      var j: int :| Way(q, p, j, size) == t || Way(q, p, j, size) == -t;
      WayBack(p, q, -j, size);
      forall k: int
        ensures Way(p, q, k, size) >= t || Way(p, q, k, size) <= -t
      {
        WayBack(p, q, k, size);
      }
    }
  }

  lemma ForwardLeast(p: real, q: real, size: real)
    requires size > 0.0 && p >= q
    ensures var t := TorusAxis(p, q, size);
      && t >= 0.0
      && (forall k: int :: Way(p, q, k, size) >= t || Way(p, q, k, size) <= -t)
      && exists k: int :: Way(p, q, k, size) == t || Way(p, q, k, size) == -t
  {
    var n := ((p - q) / size).Floor;
    var rest := p - q - size * n as real;
    RestBounds(p - q, size, n);
    AxisOfRest(p, q, size, n);
    var t := TorusAxis(p, q, size);
    hide Way, TorusAxis;
    forall k: int
      ensures Way(p, q, k, size) >= t || Way(p, q, k, size) <= -t
    {
      WayOfRest(p, q, size, n, k, rest);
      NotBetween(rest, n + k, size, Way(p, q, k, size));
    }
    WayOfRest(p, q, size, n, -n, rest);
    WayOfRest(p, q, size, n, -n - 1, rest);
  }

  lemma RestBounds(d: real, size: real, n: int)
    requires size > 0.0 && d >= 0.0 && n == (d / size).Floor
    ensures 0.0 <= d - size * n as real < size
  {
    var q, low := d / size, n as real;
    TimesAtMost(d, q, low, size);
    TimesAbove(d, q, low + 1.0, size);
  }

  lemma AxisOfRest(p: real, q: real, size: real, n: int)
    requires size > 0.0 && p >= q && n == ((p - q) / size).Floor
    ensures var rest := p - q - size * n as real;
      TorusAxis(p, q, size) == if rest < size - rest then rest else size - rest
  {
    if p == q {
      assert (p - q) / size == 0.0;
    }
  }

  /** A way around, by what is left of the distance after `n` rounds. */
  lemma WayOfRest(p: real, q: real, size: real, n: int, k: int, rest: real)
    requires rest == p - q - size * n as real
    ensures Way(p, q, k, size) == rest + (n + k) as real * size
    ensures k == -n ==> Way(p, q, k, size) == rest
    ensures k == -n - 1 ==> Way(p, q, k, size) == rest - size
  {
    var x, y := n as real, k as real;
    assert (n + k) as real == x + y;
    assert (x + y) * size == x * size + y * size;
  }

  lemma NotBetween(rest: real, m: int, size: real, way: real)
    requires 0.0 <= rest < size && way == rest + m as real * size
    ensures way >= rest || way <= rest - size
  {
    var x := m as real;
    if m >= 0 {
      assert x * size >= 0.0;
    } else {
      MulOrder(x, -1.0, size);
    }
  }

  lemma WayBack(p: real, q: real, k: int, size: real)
    ensures Way(p, q, k, size) == -Way(q, p, -k, size)
  {
    var x := k as real;
    assert (-k) as real == -x;
    assert (-x) * size == -(x * size);
  }

  lemma Turned(p: real, q: real, size: real)
    ensures TorusAxis(p, q, size) == TorusAxis(q, p, size)
  {
  }

  // ---- Squares ----

  function Square(d: real): real {
    d * d
  }

  lemma SquareOrder(d: real, limit: real)
    requires d >= 0.0 && limit >= 0.0
    ensures Square(d) <= Square(limit) <==> d <= limit
  {
    if d <= limit {
      DifferenceOfSquares(limit, d);
      MulOrder(0.0, limit - d, limit + d);
    } else {
      DifferenceOfSquares(d, limit);
      MulStrict(0.0, d - limit, d + limit);
    }
  }

  lemma DifferenceOfSquares(a: real, b: real)
    ensures (a - b) * (a + b) == Square(a) - Square(b)
  {
  }

  lemma SquareSign(d: real)
    ensures Square(-d) == Square(d) >= 0.0 && Square(0.0) == 0.0
  {
  }

  /** A distance is within the limit exactly when its square is within the square. */
  lemma SquareWithin(d: real, limit: real)
    requires limit >= 0.0
    ensures Square(d) <= Square(limit) <==> -limit <= d <= limit
  {
    SquareSign(d);
    hide Square;
    if d < 0.0 {
      SquareOrder(-d, limit);
    } else {
      SquareOrder(d, limit);
    }
  }

  lemma SamePlace(p: real, size: real)
    ensures TorusAxis(p, p, size) == 0.0
  {
  }

  /** The distance on a torus, axis by axis. */
  lemma TorusSquares(w: World, a: Coord, b: Coord)
    requires w.torus
    ensures SquaredDistance(w, a, b) ==
      Square(TorusAxis(a.x, b.x, w.size.x)) + Square(TorusAxis(a.y, b.y, w.size.y)) + Square(TorusAxis(a.z, b.z, w.size.z))
    ensures InRange(w, a, b) <==> SquaredDistance(w, a, b) <= Square(w.maxDistance)
  {
    hide TorusAxis;
  }

  /** The distance on a plain playground, axis by axis. */
  lemma PlainSquares(w: World, a: Coord, b: Coord)
    requires !w.torus
    ensures SquaredDistance(w, a, b) == Square(a.x - b.x) + Square(a.y - b.y) + Square(a.z - b.z)
    ensures InRange(w, a, b) <==> SquaredDistance(w, a, b) <= Square(w.maxDistance)
  {
  }

  /** Radios that differ on one axis only are in range exactly when they are at most the interference distance apart. */
  lemma OneAxisRange(w: World, a: Coord, b: Coord)
    requires !w.torus && w.maxDistance >= 0.0
    ensures a.y == b.y && a.z == b.z ==> (InRange(w, a, b) <==> -w.maxDistance <= a.x - b.x <= w.maxDistance)
    ensures a.x == b.x && a.z == b.z ==> (InRange(w, a, b) <==> -w.maxDistance <= a.y - b.y <= w.maxDistance)
    ensures a.x == b.x && a.y == b.y ==> (InRange(w, a, b) <==> -w.maxDistance <= a.z - b.z <= w.maxDistance)
  {
    PlainSquares(w, a, b);
    SquareSign(0.0);
    hide Square, InRange, SquaredDistance;
    SquareWithin(a.x - b.x, w.maxDistance);
    SquareWithin(a.y - b.y, w.maxDistance);
    SquareWithin(a.z - b.z, w.maxDistance);
  }

  /** On a torus exactly when some way around that axis is. */
  lemma OneAxisTorusRange(w: World, a: Coord, b: Coord)
    requires w.torus && w.maxDistance >= 0.0 && w.size.x > 0.0 && w.size.y > 0.0 && w.size.z > 0.0
    ensures a.y == b.y && a.z == b.z ==> (InRange(w, a, b) <==> exists k: int :: -w.maxDistance <= Way(a.x, b.x, k, w.size.x) <= w.maxDistance)
    ensures a.x == b.x && a.z == b.z ==> (InRange(w, a, b) <==> exists k: int :: -w.maxDistance <= Way(a.y, b.y, k, w.size.y) <= w.maxDistance)
    ensures a.x == b.x && a.y == b.y ==> (InRange(w, a, b) <==> exists k: int :: -w.maxDistance <= Way(a.z, b.z, k, w.size.z) <= w.maxDistance)
  {
    TorusSquares(w, a, b);
    SamePlace(a.x, w.size.x);
    SamePlace(a.y, w.size.y);
    SamePlace(a.z, w.size.z);
    SquareSign(0.0);
    AxisWithin(a.x, b.x, w.size.x, w.maxDistance);
    AxisWithin(a.y, b.y, w.size.y, w.maxDistance);
    AxisWithin(a.z, b.z, w.size.z, w.maxDistance);
    hide *;
  }

  lemma AxisWithin(p: real, q: real, size: real, limit: real)
    requires size > 0.0 && limit >= 0.0
    ensures Square(TorusAxis(p, q, size)) <= Square(limit) <==> exists k: int :: -limit <= Way(p, q, k, size) <= limit
  {
    TorusAxisLeast(p, q, size);
    hide Way, TorusAxis, Square;
    SquareWithin(TorusAxis(p, q, size), limit);
  }

  /** By way of a corner: the squares of what lies along an axis and of the rest add up, torus or not. */
  lemma RightAngles(w: World, a: Coord, b: Coord)
    ensures SquaredDistance(w, a, b) == SquaredDistance(w, a, Coord(b.x, a.y, a.z)) + SquaredDistance(w, Coord(b.x, a.y, a.z), b)
    ensures SquaredDistance(w, a, b) == SquaredDistance(w, a, Coord(a.x, b.y, a.z)) + SquaredDistance(w, Coord(a.x, b.y, a.z), b)
    ensures SquaredDistance(w, a, b) == SquaredDistance(w, a, Coord(a.x, a.y, b.z)) + SquaredDistance(w, Coord(a.x, a.y, b.z), b)
  {
    SamePlace(a.x, w.size.x);
    SamePlace(a.y, w.size.y);
    SamePlace(a.z, w.size.z);
    SamePlace(b.x, w.size.x);
    SamePlace(b.y, w.size.y);
    SamePlace(b.z, w.size.z);
    hide TorusAxis;
  }

  /** Along one axis of a plain playground the squared distance is the square of the difference. */
  lemma OneAxisSquare(w: World, a: Coord, b: Coord)
    requires !w.torus
    ensures a.y == b.y && a.z == b.z ==> SquaredDistance(w, a, b) == (a.x - b.x) * (a.x - b.x)
    ensures a.x == b.x && a.z == b.z ==> SquaredDistance(w, a, b) == (a.y - b.y) * (a.y - b.y)
    ensures a.x == b.x && a.y == b.y ==> SquaredDistance(w, a, b) == (a.z - b.z) * (a.z - b.z)
  {
  }

  /** The squared length of a way around all three axes. */
  function WaySquared(w: World, a: Coord, b: Coord, i: int, j: int, k: int): real {
    Square(Way(a.x, b.x, i, w.size.x)) + Square(Way(a.y, b.y, j, w.size.y)) + Square(Way(a.z, b.z, k, w.size.z))
  }

  /** On a torus radios are in range exactly when some way around, on every axis, is short enough. */
  lemma TorusRangeIff(w: World, a: Coord, b: Coord)
    requires w.torus && w.size.x > 0.0 && w.size.y > 0.0 && w.size.z > 0.0
    ensures InRange(w, a, b) <==> exists i: int, j: int, k: int :: WaySquared(w, a, b, i, j, k) <= w.maxDistance * w.maxDistance
  {
    TorusSquares(w, a, b);
    assert Square(w.maxDistance) == w.maxDistance * w.maxDistance;
    hide Way, TorusAxis, Square, InRange, SquaredDistance;
    var i := ShortestWay(a.x, b.x, w.size.x);
    var j := ShortestWay(a.y, b.y, w.size.y);
    var k := ShortestWay(a.z, b.z, w.size.z);
    assert WaySquared(w, a, b, i, j, k) == SquaredDistance(w, a, b);
    forall i': int, j': int, k': int
      ensures WaySquared(w, a, b, i', j', k') >= SquaredDistance(w, a, b)
    {
      NoShorterSquare(a.x, b.x, w.size.x, i');
      NoShorterSquare(a.y, b.y, w.size.y, j');
      NoShorterSquare(a.z, b.z, w.size.z, k');
    }
  }

  lemma ShortestWay(p: real, q: real, size: real) returns (k: int)
    requires size > 0.0
    ensures Square(Way(p, q, k, size)) == Square(TorusAxis(p, q, size))
  {
    TorusAxisLeast(p, q, size);
    hide Way, TorusAxis, Square;
    var t := TorusAxis(p, q, size);
    k :| Way(p, q, k, size) == t || Way(p, q, k, size) == -t;
    SquareSign(t);
  }

  lemma NoShorterSquare(p: real, q: real, size: real, k: int)
    requires size > 0.0
    ensures Square(TorusAxis(p, q, size)) <= Square(Way(p, q, k, size))
  {
    TorusAxisLeast(p, q, size);
    hide Way, TorusAxis, Square;
    var t, d := TorusAxis(p, q, size), Way(p, q, k, size);
    SquareSign(d);
    SquareOrder(t, if d < 0.0 then -d else d);
  }
}
