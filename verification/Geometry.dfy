/** Plane geometry over the reals.  `math.Hypot` and `math.Sqrt` enter as function values;
    all that is assumed of them is that they return the non-negative square root. */
module Geometry {

  datatype Vec = Vec(x: real, y: real)

  ghost predicate IsHypot(hypot: (real, real) -> real) {
    forall dx, dy :: hypot(dx, dy) >= 0.0 && hypot(dx, dy) * hypot(dx, dy) == dx * dx + dy * dy
  }

  lemma SquareOrder(a: real, b: real)
    requires 0.0 <= a && 0.0 <= b
    ensures a * a <= b * b <==> a <= b
  {
    var u, v := a - b, a + b;
    assert u * v == a * a - b * b;
    Positive(if 0.0 <= u then u else -u, v);
    assert (-u) * v == -(u * v);
  }

  lemma Positive(u: real, v: real)
    requires 0.0 <= u && 0.0 <= v
    ensures 0.0 <= u * v && (0.0 < u && 0.0 < v ==> 0.0 < u * v)
  {
  }

  lemma ProductIsPositive(u: real, v: real, q: real)
    requires 0.0 < u && 0.0 < v && q == u * v
    ensures 0.0 < q
  {
  }

  lemma Lagrange(x1: real, y1: real, x2: real, y2: real)
    ensures (x1 * x1 + y1 * y1) * (x2 * x2 + y2 * y2)
         == (x1 * x2 + y1 * y2) * (x1 * x2 + y1 * y2) + (x1 * y2 - x2 * y1) * (x1 * y2 - x2 * y1)
  {
    var p, q, r, s := x1 * x2, y1 * y2, x1 * y2, x2 * y1;
    assert (p + q) * (p + q) == p * p + 2.0 * (p * q) + q * q;
    assert (r - s) * (r - s) == r * r - 2.0 * (r * s) + s * s;
    assert p * q == r * s;
    var a, b, c, d := x1 * x1, y1 * y1, x2 * x2, y2 * y2;
    assert (a + b) * (c + d) == a * c + a * d + b * c + b * d;
    assert a * c == p * p && b * d == q * q && a * d == r * r && b * c == s * s;
  }

  /** Cauchy-Schwarz in the plane, with a and b the two lengths. */
  lemma DotBound(x1: real, y1: real, x2: real, y2: real, a: real, b: real)
    requires 0.0 <= a && 0.0 <= b && a * a == x1 * x1 + y1 * y1 && b * b == x2 * x2 + y2 * y2
    ensures x1 * x2 + y1 * y2 <= a * b
  {
    var dot, cross := x1 * x2 + y1 * y2, x1 * y2 - x2 * y1;
    var aa, bb := a * a, b * b;
    Lagrange(x1, y1, x2, y2);
    assert aa * bb == dot * dot + cross * cross;
    assert (a * b) * (a * b) == aa * bb;
    Positive(a, b);
    if 0.0 <= dot {
      SquareOrder(dot, a * b);
    }
  }

  lemma HypotTriangle(hypot: (real, real) -> real, x1: real, y1: real, x2: real, y2: real)
    requires IsHypot(hypot)
    ensures hypot(x1 + x2, y1 + y2) <= hypot(x1, y1) + hypot(x2, y2)
  {
    var a, b, c := hypot(x1, y1), hypot(x2, y2), hypot(x1 + x2, y1 + y2);
    DotBound(x1, y1, x2, y2, a, b);
    var dot := x1 * x2 + y1 * y2;
    assert c * c == a * a + b * b + 2.0 * dot by {
      assert (x1 + x2) * (x1 + x2) == x1 * x1 + x2 * x2 + 2.0 * (x1 * x2);
      assert (y1 + y2) * (y1 + y2) == y1 * y1 + y2 * y2 + 2.0 * (y1 * y2);
    }
    assert (a + b) * (a + b) == a * a + b * b + 2.0 * (a * b);
    SquareOrder(c, a + b);
  }

  lemma HypotEven(hypot: (real, real) -> real, dx: real, dy: real)
    requires IsHypot(hypot)
    ensures hypot(-dx, -dy) == hypot(dx, dy)
  {
    var a, b := hypot(dx, dy), hypot(-dx, -dy);
    assert a * a == b * b by { assert (-dx) * (-dx) == dx * dx && (-dy) * (-dy) == dy * dy; }
    SquareOrder(a, b);
    SquareOrder(b, a);
  }

  /** The Euclidean distance between two points. */
  function Distance(hypot: (real, real) -> real, a: Vec, b: Vec): real {
    hypot(a.x - b.x, a.y - b.y)
  }

  lemma DistanceIsMetric(hypot: (real, real) -> real, a: Vec, b: Vec, c: Vec)
    requires IsHypot(hypot)
    ensures 0.0 <= Distance(hypot, a, b) == Distance(hypot, b, a)
    ensures Distance(hypot, a, c) <= Distance(hypot, a, b) + Distance(hypot, b, c)
  {
    HypotEven(hypot, b.x - a.x, b.y - a.y);
    assert -(b.x - a.x) == a.x - b.x && -(b.y - a.y) == a.y - b.y;
    HypotTriangle(hypot, a.x - b.x, a.y - b.y, b.x - c.x, b.y - c.y);
    assert (a.x - b.x) + (b.x - c.x) == a.x - c.x && (a.y - b.y) + (b.y - c.y) == a.y - c.y;
  }

  lemma OnAxis(hypot: (real, real) -> real, x: real)
    requires IsHypot(hypot)
    ensures hypot(x, 0.0) == if x < 0.0 then -x else x
  {
    var h, d := hypot(x, 0.0), if x < 0.0 then -x else x;
    assert h * h == x * x + 0.0 * 0.0;
    assert d * d == x * x;
    SquareOrder(h, d);
    SquareOrder(d, h);
  }

  /** What the Euclidean norm says of vectors along the first axis. */
  ghost predicate Measures(hypot: (real, real) -> real) {
    forall x: real :: hypot(x, 0.0) == if x < 0.0 then -x else x
  }

  lemma TheNormMeasures(hypot: (real, real) -> real)
    requires IsHypot(hypot)
    ensures Measures(hypot)
  {
    hide IsHypot;
    forall x
      ensures hypot(x, 0.0) == if x < 0.0 then -x else x
    {
      OnAxis(hypot, x);
    }
  }

  /** The norm of a scaled vector. */
  lemma HypotScales(hypot: (real, real) -> real, x: real, y: real, k: real, u: real, v: real, m: real)
    requires IsHypot(hypot) && 0.0 <= k && 0.0 <= m && u * m == x * k && v * m == y * k
    ensures hypot(u, v) * m == hypot(x, y) * k
  {
    var h, g := hypot(u, v), hypot(x, y);
    assert 0.0 <= h && 0.0 <= g && h * h == u * u + v * v && g * g == x * x + y * y;
    EqualSquares(h, u, v, m, h * m);
    EqualSquares(g, x, y, k, g * k);
    Positive(h, m);
    Positive(g, k);
    SquareOrder(h * m, g * k);
    SquareOrder(g * k, h * m);
  }

  lemma EqualSquares(h: real, u: real, v: real, m: real, hm: real)
    requires h * h == u * u + v * v && hm == h * m
    ensures hm * hm == (u * m) * (u * m) + (v * m) * (v * m)
  {
    var mm := m * m;
    SquareOfProduct(h, m);
    SquareOfProduct(u, m);
    SquareOfProduct(v, m);
    SumTimes(u * u, v * v, mm);
  }

  lemma SquareOfProduct(a: real, b: real)
    ensures (a * b) * (a * b) == (a * a) * (b * b)
  {
    assert (a * b) * (a * b) == a * (b * (a * b));
  }

  lemma SumTimes(a: real, b: real, c: real)
    ensures (a + b) * c == a * c + b * c
  {
  }

  lemma Distributes(d: real, p: real, t: real)
    ensures d * (p + t) == d * p + d * t
  {
  }

  lemma Associates(d: real, w: real, s: real)
    ensures (d * w) * s == d * (w * s)
  {
  }
}
