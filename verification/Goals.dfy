/** Where routes end: at the exact target, in the province that it belongs to. */
module Goals {
  import opened Geometry
  import opened Maps
  import opened Router
  import opened Routes

  /** pos is the point at parameter t of the way between two centres. */
  ghost predicate PointOf(a: Vec, b: Vec, t: real, pos: Vec) {
    pos.x - a.x == (b.x - a.x) * t && pos.y - a.y == (b.y - a.y) * t
  }

  lemma ShareOfTheWay(hypot: (real, real) -> real, a: Vec, b: Vec, t: real, pos: Vec)
    requires IsHypot(hypot) && 0.0 <= t && PointOf(a, b, t, pos)
    ensures Distance(hypot, pos, a) == Distance(hypot, b, a) * t
  {
    HypotScales(hypot, b.x - a.x, b.y - a.y, t, pos.x - a.x, pos.y - a.y, 1.0);
  }

  lemma FromTheOtherEnd(a: real, b: real, t: real, p: real)
    requires p - a == (b - a) * t
    ensures p - b == (a - b) * (1.0 - t)
  {
    assert (a - b) * (1.0 - t) == (a - b) - (a - b) * t;
    assert (a - b) * t == -((b - a) * t);
  }

  lemma SharesOfTheWay(hypot: (real, real) -> real, a: Vec, b: Vec, t: real, pos: Vec)
    requires IsHypot(hypot) && 0.0 <= t <= 1.0 && PointOf(a, b, t, pos)
    ensures var whole := Distance(hypot, a, b);
            0.0 <= whole && Distance(hypot, pos, a) == whole * t && Distance(hypot, pos, b) == whole * (1.0 - t)
    ensures a != b ==> 0.0 < Distance(hypot, a, b)
  {
    hide IsHypot;
    DistanceIsMetric(hypot, a, b, a);
    ShareOfTheWay(hypot, a, b, t, pos);
    FromTheOtherEnd(a.x, b.x, t, pos.x);
    FromTheOtherEnd(a.y, b.y, t, pos.y);
    ShareOfTheWay(hypot, b, a, 1.0 - t, pos);
    if a != b {
      DifferentPointsAreApart(hypot, a, b);
    }
  }

  lemma DifferentPointsAreApart(hypot: (real, real) -> real, a: Vec, b: Vec)
    requires IsHypot(hypot) && a != b
    ensures 0.0 < Distance(hypot, a, b)
  {
    var d, x, y := Distance(hypot, a, b), a.x - b.x, a.y - b.y;
    assert x != 0.0 || y != 0.0 by {
      assert a == Vec(b.x + x, b.y + y);
    }
    SomeLength(d, x, y);
  }

  lemma SomeLength(d: real, x: real, y: real)
    requires 0.0 <= d && d * d == x * x + y * y && (x != 0.0 || y != 0.0)
    ensures 0.0 < d
  {
    NonZeroSquare(x, x * x);
    NonZeroSquare(y, y * y);
    ZeroSquare(d, x * x + y * y);
  }

  lemma ZeroSquare(d: real, q: real)
    requires q == d * d
    ensures d == 0.0 ==> q == 0.0
  {
  }

  lemma NonZeroSquare(x: real, q: real)
    requires q == x * x
    ensures 0.0 <= q && (x != 0.0 ==> 0.0 < q)
  {
    if 0.0 < x {
      ProductIsPositive(x, x, q);
    } else if x < 0.0 {
      ProductIsPositive(-x, -x, q);
    }
  }

  lemma SmallerShare(whole: real, t: real)
    requires 0.0 <= whole
    ensures t <= 0.5 ==> whole * t <= whole * (1.0 - t)
    ensures 0.5 <= t ==> whole * (1.0 - t) <= whole * t
    ensures 0.0 < whole && whole * t <= whole * (1.0 - t) ==> t <= 0.5
  {
    var gap := 1.0 - 2.0 * t;
    assert whole * (1.0 - t) - whole * t == whole * gap;
    Positive(whole, if gap < 0.0 then -gap else gap);
    assert whole * (-gap) == -(whole * gap);
  }

  /** g is the end of the edge that pos is no further from than from the other one, and the first when it is
      as near to it. */
  ghost predicate NearerEnd(graph: Graph, a: string, b: string, pos: Vec, g: string)
    requires a in graph.coords && b in graph.coords
  {
    var toA, toB := Distance(graph.hypot, pos, graph.coords[a]), Distance(graph.hypot, pos, graph.coords[b]);
    (g == a && toA <= toB) || (g == b && toB <= toA && (graph.coords[a] != graph.coords[b] ==> toB < toA))
  }

  lemma TheGoalIsTheNearerEnd(graph: Graph, a: string, b: string, t: real, pos: Vec)
    requires IsHypot(graph.hypot) && a in graph.coords && b in graph.coords && 0.0 <= t <= 1.0
    requires PointOf(graph.coords[a], graph.coords[b], t, pos)
    ensures NearerEnd(graph, a, b, pos, OnEdge(a, b, t, pos).GoalProvince())
  {
    hide PointOf, IsHypot;
    SharesOfTheWay(graph.hypot, graph.coords[a], graph.coords[b], t, pos);
    SmallerShare(Distance(graph.hypot, graph.coords[a], graph.coords[b]), t);
  }

  /** A route to a point of an edge ends exactly there, in the province of the nearer end of that edge. */
  lemma RoutesEndAtTheNearerEnd(graph: Graph, from: Vec, start: string, a: string, b: string, t: real, pos: Vec,
                                legs: seq<Leg>)
    requires graph.Sound() && a in graph.coords && b in graph.coords && 0.0 <= t <= 1.0
    requires PointOf(graph.coords[a], graph.coords[b], t, pos)
    requires Answers(graph, from, start, OnEdge(a, b, t, pos), Legs(legs))
    ensures legs != [] && legs[|legs| - 1].to == pos
    ensures NearerEnd(graph, a, b, pos, legs[|legs| - 1].toProv)
  {
    hide Shortest, Follows, PointOf, IsHypot, NearerEnd;
    TheGoalIsTheNearerEnd(graph, a, b, t, pos);
  }

  /** A route to a province ends at the exact point given, in that province; and there is none exactly when it
      cannot be reached. */
  lemma RoutesEndInTheProvince(graph: Graph, from: Vec, start: string, p: string, pos: Vec, r: Route)
    requires Answers(graph, from, start, AtNode(p, pos), r) && start != "" && p != ""
    ensures r.NoRoute? <==> !Reachable(graph, start, p)
    ensures r.Legs? ==> r.legs != [] && r.legs[|r.legs| - 1].to == pos && r.legs[|r.legs| - 1].toProv == p
  {
    hide Follows;
    if r.Legs? {
      var via :| Shortest(graph, via, start, p) && Follows(graph, from, via, AtNode(p, pos), r.legs);
    }
  }
}
