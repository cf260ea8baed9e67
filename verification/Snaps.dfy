/** Snapping a point of the map to a place that a unit can go to. */
module Snaps {
  import opened Geometry
  import opened Maps
  import opened Routes
  import opened Units

  const NODE_SNAP_RADIUS: real := 24.0
  const EDGE_SNAP_MAX_DIST: real := 20.0

  function Dot(a: Vec, b: Vec): real {
    a.x * b.x + a.y * b.y
  }

  function Minus(a: Vec, b: Vec): Vec {
    Vec(a.x - b.x, a.y - b.y)
  }

  /** projectSegment: the parameter of the point of the segment from a to b closest to p. */
  function ProjectSegment(p: Vec, a: Vec, b: Vec): (t: real)
    ensures 0.0 <= t <= 1.0
  {
    var d := Minus(b, a);
    var len2 := Squared(d);
    if len2 == 0.0 then 0.0 else
      var t := Dot(Minus(p, a), d) / len2;
      if t < 0.0 then 0.0 else if t > 1.0 then 1.0 else t
  }

  function Square(u: real): real {
    u * u
  }

  function Squared(v: Vec): real {
    Square(v.x) + Square(v.y)
  }

  /** How much further, in squared distance, the point at parameter s is than the start of the
      segment, if dd and ll are the products with the direction and its squared length. */
  function Further(dd: real, ll: real, s: real): real {
    s * s * ll - 2.0 * (s * dd)
  }

  /** The squared distance to the point at parameter s is a quadratic in s. */
  lemma DistanceAlong(p: Vec, a: Vec, b: Vec, s: real)
    ensures Squared(Minus(p, Between(a, b, s)))
         == Squared(Minus(p, a)) + Further(Dot(Minus(p, a), Minus(b, a)), Squared(Minus(b, a)), s)
  {
    hide Square, Further;
    var u, v, d, e := p.x - a.x, p.y - a.y, b.x - a.x, b.y - a.y;
    assert Minus(p, Between(a, b, s)) == Vec(u - d * s, v - e * s);
    OneAxis(u, d, s);
    OneAxis(v, e, s);
    FurtherAdds(u * d, v * e, Square(d), Square(e), s);
    assert Minus(p, a) == Vec(u, v) && Minus(b, a) == Vec(d, e);
    assert Dot(Minus(p, a), Minus(b, a)) == u * d + v * e && Squared(Minus(b, a)) == Square(d) + Square(e);
  }

  lemma FurtherAdds(dd: real, ee: real, ll: real, mm: real, s: real)
    ensures Further(dd + ee, ll + mm, s) == Further(dd, ll, s) + Further(ee, mm, s)
  {
  }

  lemma OneAxis(u: real, d: real, s: real)
    ensures Square(u - d * s) == Square(u) + Further(u * d, Square(d), s)
  {
    var w := d * s;
    assert (u - w) * (u - w) == u * u - 2.0 * (u * w) + w * w;
    assert u * w == s * (u * d);
    assert w * w == s * s * (d * d);
  }

  /** The vertex of a quadratic, clamped to the unit interval, is its least point there. */
  lemma ClampedVertex(dd: real, ll: real, t: real, s: real)
    requires 0.0 < ll && 0.0 <= s <= 1.0
    requires t == (var v := dd / ll; if v < 0.0 then 0.0 else if v > 1.0 then 1.0 else v)
    ensures Further(dd, ll, t) <= Further(dd, ll, s)
  {
    var v := dd / ll;
    assert v * ll == dd;
    var gap := (s - t) * (s + t - 2.0 * v);
    assert 0.0 <= gap by {
      if v < 0.0 {
        Positive(s, s - 2.0 * v);
      } else if v > 1.0 {
        Positive(1.0 - s, 2.0 * v - 1.0 - s);
        assert gap == (1.0 - s) * (2.0 * v - 1.0 - s);
      } else {
        SquaresArePositive(s - t);
      }
    }
    Positive(gap, ll);
    assert gap == (s * s - 2.0 * (s * v)) - (t * t - 2.0 * (t * v));
    assert gap * ll == (s * s - 2.0 * (s * v)) * ll - (t * t - 2.0 * (t * v)) * ll;
    Expand(s, v, ll, dd);
    Expand(t, v, ll, dd);
  }

  lemma Expand(s: real, v: real, ll: real, dd: real)
    requires v * ll == dd
    ensures (s * s - 2.0 * (s * v)) * ll == s * s * ll - 2.0 * (s * dd)
  {
    assert (s * v) * ll == s * (v * ll);
  }

  lemma SquaresArePositive(u: real)
    ensures 0.0 <= Square(u) && (u != 0.0 ==> 0.0 < Square(u))
  {
    if 0.0 < u {
      ProductIsPositive(u, u, Square(u));
    } else if u < 0.0 {
      ProductIsPositive(-u, -u, Square(u));
    }
  }

  lemma LengthIsPositive(d: Vec)
    ensures 0.0 <= Squared(d) && (Squared(d) == 0.0 ==> d == Vec(0.0, 0.0))
  {
    hide Square;
    SquaresArePositive(d.x);
    SquaresArePositive(d.y);
  }

  lemma NoLength(v: Vec, s: real)
    ensures Further(Dot(v, Vec(0.0, 0.0)), 0.0, s) == 0.0
  {
  }

  /** In squared distances, no point of the segment is closer to p than the projection. */
  lemma ProjectionIsLeast(p: Vec, a: Vec, b: Vec, s: real)
    requires 0.0 <= s <= 1.0
    ensures Squared(Minus(p, Between(a, b, ProjectSegment(p, a, b)))) <= Squared(Minus(p, Between(a, b, s)))
  {
    hide Minus, Between, Dot, Square, Further;
    var t, d := ProjectSegment(p, a, b), Minus(b, a);
    DistanceAlong(p, a, b, s);
    DistanceAlong(p, a, b, t);
    LengthIsPositive(d);
    if Squared(d) == 0.0 {
      NoLength(Minus(p, a), s);
      NoLength(Minus(p, a), t);
    } else {
      ClampedVertex(Dot(Minus(p, a), d), Squared(d), t, s);
    }
  }

  /** No point of the segment is closer to p than the projection. */
  lemma ProjectionIsClosest(hypot: (real, real) -> real, p: Vec, a: Vec, b: Vec, s: real)
    requires IsHypot(hypot) && 0.0 <= s <= 1.0
    ensures Distance(hypot, p, Between(a, b, ProjectSegment(p, a, b))) <= Distance(hypot, p, Between(a, b, s))
  {
    hide Between, ProjectSegment;
    ProjectionIsLeast(p, a, b, s);
    SquareOrder(Distance(hypot, p, Between(a, b, ProjectSegment(p, a, b))), Distance(hypot, p, Between(a, b, s)));
  }

  /** How far p is from edge k; an edge with an unknown end is out of reach. */
  function EdgeDistance(graph: Graph, p: Vec, k: int): real
    requires 0 <= k < |graph.edges|
  {
    var e := graph.edges[k];
    if e.from in graph.coords && e.to in graph.coords then Distance(graph.hypot, p, EdgePoint(graph, p, k))
    else EDGE_SNAP_MAX_DIST + 1.0
  }

  /** The point of edge k closest to p. */
  function EdgePoint(graph: Graph, p: Vec, k: int): Vec
    requires 0 <= k < |graph.edges| && graph.edges[k].from in graph.coords && graph.edges[k].to in graph.coords
  {
    var a, b := graph.coords[graph.edges[k].from], graph.coords[graph.edges[k].to];
    Between(a, b, ProjectSegment(p, a, b))
  }

  /** q is the centre of a nearest province among those in snapping range. */
  ghost predicate SnapsToNode(graph: Graph, p: Vec, q: string) {
    && q in graph.coords && Distance(graph.hypot, p, graph.coords[q]) <= NODE_SNAP_RADIUS
    && forall o | o in graph.coords ::
         Distance(graph.hypot, p, graph.coords[q]) <= Distance(graph.hypot, p, graph.coords[o])
  }

  ghost predicate SomeNodeNear(graph: Graph, p: Vec) {
    exists q :: q in graph.coords && Distance(graph.hypot, p, graph.coords[q]) <= NODE_SNAP_RADIUS
  }

  /** Edge k is the first of the nearest edges in snapping range. */
  ghost predicate SnapsToEdge(graph: Graph, p: Vec, k: int) {
    && 0 <= k < |graph.edges| && EdgeDistance(graph, p, k) <= EDGE_SNAP_MAX_DIST
    && (forall j | 0 <= j < |graph.edges| :: EdgeDistance(graph, p, k) <= EdgeDistance(graph, p, j))
    && forall j | 0 <= j < k :: EdgeDistance(graph, p, k) < EdgeDistance(graph, p, j)
  }

  /** Where p snaps to: a province close by, else a point of an edge close by, else the nearest
      province. */
  ghost predicate SnapsTo(graph: Graph, p: Vec, t: Target) {
    if SomeNodeNear(graph, p) then
      t.AtNode? && SnapsToNode(graph, p, t.province) && t.pos == graph.coords[t.province]
    else if exists k :: SnapsToEdge(graph, p, k) then
      t.OnEdge? && exists k :: SnapsToEdge(graph, p, k) && t == SnappedTo(graph, p, k)
    else
      t.AtNode? && Nearest(graph, p, t.province) && t.pos == graph.Coord(t.province)
  }

  function SnappedTo(graph: Graph, p: Vec, k: int): Target
    requires 0 <= k < |graph.edges|
  {
    var e := graph.edges[k];
    if e.from in graph.coords && e.to in graph.coords then
      var a, b := graph.coords[e.from], graph.coords[e.to];
      OnEdge(e.from, e.to, ProjectSegment(p, a, b), EdgePoint(graph, p, k))
    else AtNode("", Vec(0.0, 0.0))
  }

  /** The province centres in reach. */
  method NearestNode(graph: Graph, p: Vec) returns (best: string)
    requires "" !in graph.coords
    ensures best == "" ==> !SomeNodeNear(graph, p)
    ensures best != "" ==> SnapsToNode(graph, p, best)
  {
    best := "";
    var bestDist := NODE_SNAP_RADIUS + 1.0;
    var rest := graph.coords.Keys;
    while rest != {}
      invariant rest <= graph.coords.Keys
      invariant best == "" ==> bestDist == NODE_SNAP_RADIUS + 1.0
      invariant best != "" ==> best in graph.coords
      invariant best != "" ==> bestDist == Distance(graph.hypot, p, graph.coords[best]) <= NODE_SNAP_RADIUS
      invariant forall q |
          q in graph.coords && q !in rest && Distance(graph.hypot, p, graph.coords[q]) <= NODE_SNAP_RADIUS ::
                  best != "" && bestDist <= Distance(graph.hypot, p, graph.coords[q])
      decreases rest
    {
      var q :| q in rest;
      rest := rest - {q};
      var d := Distance(graph.hypot, p, graph.coords[q]);
      if d <= NODE_SNAP_RADIUS && d < bestDist {
        bestDist, best := d, q;
      }
    }
  }

  /** SnapTarget. */
  method SnapTarget(graph: Graph, p: Vec) returns (t: Target)
    requires "" !in graph.coords
    ensures SnapsTo(graph, p, t)
  {
    var node := NearestNode(graph, p);
    if node != "" {
      return AtNode(node, graph.coords[node]);
    }
    var best, bestDist := -1, EDGE_SNAP_MAX_DIST + 1.0;
    for k := 0 to |graph.edges|
      invariant best == -1 ==> bestDist == EDGE_SNAP_MAX_DIST + 1.0
      invariant best != -1 ==> 0 <= best < k && bestDist == EdgeDistance(graph, p, best) <= EDGE_SNAP_MAX_DIST
      invariant forall j | 0 <= j < k ::
          bestDist <= EdgeDistance(graph, p, j) || EDGE_SNAP_MAX_DIST < EdgeDistance(graph, p, j)
      invariant forall j | 0 <= j < best :: bestDist < EdgeDistance(graph, p, j)
    {
      var d := EdgeDistance(graph, p, k);
      if d <= EDGE_SNAP_MAX_DIST && d < bestDist {
        best, bestDist := k, d;
      }
    }
    if bestDist <= EDGE_SNAP_MAX_DIST {
      assert SnapsToEdge(graph, p, best);
      return SnappedTo(graph, p, best);
    }
    var near := NearestProvinceID(graph, p);
    t := AtNode(near, graph.Coord(near));
  }
}
