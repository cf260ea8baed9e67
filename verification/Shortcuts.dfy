/** Where routes leave the map's edges: a route follows edges from province to province, but its first leg runs
    straight from where the unit is to the first stop. */
module Shortcuts {
  import opened Geometry
  import opened Maps
  import opened Router
  import opened Routes
  import opened Units

  // ---------- segments ----------

  ghost predicate OnSegment(a: Vec, b: Vec, p: Vec) {
    exists s: real :: 0.0 <= s <= 1.0 && p == Between(a, b, s)
  }

  /** All the way from `from` to `to` is on the segment. */
  ghost predicate StaysOn(a: Vec, b: Vec, from: Vec, to: Vec) {
    forall s: real | 0.0 <= s <= 1.0 :: OnSegment(a, b, Between(from, to, s))
  }

  /** Segments are convex. */
  lemma StayingIsArriving(a: Vec, b: Vec, from: Vec, to: Vec)
    requires OnSegment(a, b, from)
    ensures StaysOn(a, b, from, to) <==> OnSegment(a, b, to)
  {
    assert Between(from, to, 1.0) == to;
    if OnSegment(a, b, to) {
      var p: real :| 0.0 <= p <= 1.0 && from == Between(a, b, p);
      var q: real :| 0.0 <= q <= 1.0 && to == Between(a, b, q);
      forall s | 0.0 <= s <= 1.0
        ensures OnSegment(a, b, Between(from, to, s))
      {
        BetweenTwoPoints(a, b, p, q, s, Mixed(p, q, s));
      }
    }
  }

  /** The parameter of a point between those of parameters p and q. */
  function Mixed(p: real, q: real, s: real): (r: real)
    requires 0.0 <= p <= 1.0 && 0.0 <= q <= 1.0 && 0.0 <= s <= 1.0
    ensures 0.0 <= r <= 1.0
  {
    ConvexInUnit(p, q, s);
    p + (q - p) * s
  }

  lemma ConvexInUnit(p: real, q: real, s: real)
    requires 0.0 <= p <= 1.0 && 0.0 <= q <= 1.0 && 0.0 <= s <= 1.0
    ensures 0.0 <= p + (q - p) * s <= 1.0
  {
    Positive(p, 1.0 - s);
    Positive(q, s);
    Positive(1.0 - p, 1.0 - s);
    Positive(1.0 - q, s);
    assert p + (q - p) * s == p * (1.0 - s) + q * s;
    assert 1.0 - (p + (q - p) * s) == (1.0 - p) * (1.0 - s) + (1.0 - q) * s;
  }

  lemma BetweenTwoPoints(a: Vec, b: Vec, p: real, q: real, s: real, r: real)
    requires r == p + (q - p) * s
    ensures Between(Between(a, b, p), Between(a, b, q), s) == Between(a, b, r)
  {
    hide Along;
    AlongTwoPoints(a.x, b.x, p, q, s, r);
    AlongTwoPoints(a.y, b.y, p, q, s, r);
  }

  lemma AlongTwoPoints(x: real, y: real, p: real, q: real, s: real, r: real)
    requires r == p + (q - p) * s
    ensures Along(Along(x, y, p), Along(x, y, q), s) == Along(x, y, r)
  {
    var d := y - x;
    MixingIsLinear(x, d, p, q, s, r);
    assert Along(x, y, p) == x + d * p && Along(x, y, q) == x + d * q && Along(x, y, r) == x + d * r;
  }

  lemma MixingIsLinear(x: real, d: real, p: real, q: real, s: real, r: real)
    requires r == p + (q - p) * s
    ensures (x + d * p) + ((x + d * q) - (x + d * p)) * s == x + d * r
  {
    var u, v, w := d * p, d * q, q - p;
    Distributes(d, p, w);
    assert (x + v) - (x + u) == d * w;
    Distributes(d, p, w * s);
    Associates(d, w, s);
  }

  // ---------- first legs ----------

  /** Where the first leg along `via` leads. */
  ghost function FirstStop(graph: Graph, via: seq<string>, target: Target): Vec {
    if |via| > 1 then graph.Coord(via[1]) else target.pos
  }

  lemma FirstLegLeadsToFirstStop(graph: Graph, from: Vec, via: seq<string>, target: Target, legs: seq<Leg>)
    requires Follows(graph, from, via, target, legs)
    ensures legs != [] && legs[0].from == from && legs[0].to == FirstStop(graph, via, target)
  {
    assert |via| > 1 ==> legs[0] == Hop(graph, from, via, 0);
  }

  /** The legs along a province path. */
  ghost function LegsOf(graph: Graph, from: Vec, via: seq<string>, target: Target): (legs: seq<Leg>)
    requires via != []
    ensures Follows(graph, from, via, target, legs)
  {
    var n := |via| - 1;
    var hops := seq(n, i requires 0 <= i < n => Hop(graph, from, via, i));
    if n > 0 && Stop(graph, from, via, n) == target.pos then hops
    else hops + [Leg(via[n], target.GoalProvince(), Stop(graph, from, via, n), target.pos)]
  }

  lemma NowhereIsReached(graph: Graph, via: seq<string>, p: string, goal: string)
    requires graph.Sound() && p != "" && graph.Connects(via, p, goal)
    ensures goal != ""
  {
    if |via| > 1 {
      assert graph.HasEdge(via[|via| - 2], via[|via| - 2 + 1]);
      graph.EdgeEnds(via[|via| - 2], goal);
    }
  }

  /** Every shortest path gives an answer of the router. */
  lemma ShortestPathsAnswer(graph: Graph, from: Vec, p: string, target: Target, via: seq<string>)
    requires graph.Sound() && p != "" && Shortest(graph, via, p, target.GoalProvince())
    ensures Answers(graph, from, p, target, Legs(LegsOf(graph, from, via, target)))
  {
    NowhereIsReached(graph, via, p, target.GoalProvince());
    FollowingDrives(graph, from, via, target, LegsOf(graph, from, via, target));
  }

  /** The first leg of every route that the router may answer stays on the edge. */
  ghost predicate RoutesStay(graph: Graph, from: Vec, edgeFrom: string, edgeTo: string, target: Target) {
    forall p: string, legs: seq<Leg> |
      StartsAt(graph, from, edgeFrom, edgeTo, p) && Answers(graph, from, p, target, Legs(legs)) ::
      legs != [] && StaysOn(graph.Coord(edgeFrom), graph.Coord(edgeTo), from, legs[0].to)
  }

  /** On every shortest path from where routes start, the first stop lies on the edge. */
  ghost predicate StopsLieOn(graph: Graph, from: Vec, edgeFrom: string, edgeTo: string, target: Target) {
    forall p: string, via: seq<string> |
      StartsAt(graph, from, edgeFrom, edgeTo, p) && Shortest(graph, via, p, target.GoalProvince()) ::
      OnSegment(graph.Coord(edgeFrom), graph.Coord(edgeTo), FirstStop(graph, via, target))
  }

  /** A unit under way on an edge stays on it with the first leg of its route, whichever that is, if and only if
      on every shortest path from where its routes start, the first stop lies on the edge. */
  lemma FirstLegsStayOnEdge(graph: Graph, from: Vec, edgeFrom: string, edgeTo: string, target: Target)
    requires graph.Sound() && edgeFrom != edgeTo && edgeFrom in graph.coords && edgeTo in graph.coords
    requires OnSegment(graph.Coord(edgeFrom), graph.Coord(edgeTo), from)
    ensures RoutesStay(graph, from, edgeFrom, edgeTo, target) <==> StopsLieOn(graph, from, edgeFrom, edgeTo, target)
  {
    hide OnSegment, Shortest, Drives, StaysOn;
    var a, b := graph.Coord(edgeFrom), graph.Coord(edgeTo);
    forall p: string, via: seq<string> |
      StartsAt(graph, from, edgeFrom, edgeTo, p) && Shortest(graph, via, p, target.GoalProvince())
      ensures via != [] && Answers(graph, from, p, target, Legs(LegsOf(graph, from, via, target)))
      ensures LegsOf(graph, from, via, target) != []
      ensures LegsOf(graph, from, via, target)[0].to == FirstStop(graph, via, target)
      ensures RoutesStay(graph, from, edgeFrom, edgeTo, target) ==> OnSegment(a, b, FirstStop(graph, via, target))
    {
      PathsAreNotEmpty(graph, via, p, target.GoalProvince());
      var legs := LegsOf(graph, from, via, target);
      ShortestPathsAnswer(graph, from, p, target, via);
      FirstLegLeadsToFirstStop(graph, from, via, target, legs);
      StayingIsArriving(a, b, from, legs[0].to);
    }
    forall p: string, legs: seq<Leg> |
      StartsAt(graph, from, edgeFrom, edgeTo, p) && Answers(graph, from, p, target, Legs(legs))
      ensures legs != []
      ensures StopsLieOn(graph, from, edgeFrom, edgeTo, target) ==> StaysOn(a, b, from, legs[0].to)
    {
      var via :| Shortest(graph, via, p, target.GoalProvince()) && Follows(graph, from, via, target, legs);
      FirstLegLeadsToFirstStop(graph, from, via, target, legs);
      StayingIsArriving(a, b, from, legs[0].to);
    }
  }

  lemma PathsAreNotEmpty(graph: Graph, via: seq<string>, p: string, goal: string)
    requires Shortest(graph, via, p, goal)
    ensures via != []
  {
  }

  // ---------- a corner that is cut ----------

  /** Three provinces at (0, 0), (2, 0) and (2, 2), with edges from a to b and from b to c. */
  function CornerMap(a: string, b: string, c: string, hypot: (real, real) -> real): Graph {
    Graph(map[a := Vec(0.0, 0.0), b := Vec(2.0, 0.0), c := Vec(2.0, 2.0)], [Edge(a, b), Edge(b, c)], hypot)
  }

  /** The only simple walk from b to c is the edge. */
  lemma OneWayToTheCorner(a: string, b: string, c: string, hypot: (real, real) -> real, via: seq<string>)
    requires a != b && b != c && a != c
    requires CornerMap(a, b, c, hypot).Connects(via, b, c) && Simple(via)
    ensures |via| > 1 && via[1] == c
  {
    var g := CornerMap(a, b, c, hypot);
    assert |via| > 1;
    assert g.HasEdge(via[0], via[0 + 1]);
    assert |via| > 2 ==> via[2] != via[0];
    assert |via| > 2 ==> g.HasEdge(via[1], via[1 + 1]);
  }

  lemma EdgeToTheCorner(a: string, b: string, c: string, hypot: (real, real) -> real)
    requires a != b && b != c && a != c
    ensures Reachable(CornerMap(a, b, c, hypot), b, c)
  {
    var g := CornerMap(a, b, c, hypot);
    assert Joins(g.edges[1], b, c);
    assert g.HasEdge([b, c][0], [b, c][0 + 1]);
    assert g.Connects([b, c], b, c);
  }

  lemma OffTheCorner(hypot: (real, real) -> real)
    ensures !OnSegment(Vec(0.0, 0.0), Vec(2.0, 0.0), Between(Vec(1.5, 0.0), Vec(2.0, 2.0), 0.5))
    ensures !OnSegment(Vec(2.0, 0.0), Vec(2.0, 2.0), Between(Vec(1.5, 0.0), Vec(2.0, 2.0), 0.5))
  {
  }

  /** A unit three quarters of the way from a to b that is sent to c starts from b, on every answer of the
      router, but with a leg that runs straight to c: halfway there it is on no edge of the map. */
  lemma CornersAreCut(a: string, b: string, c: string, hypot: (real, real) -> real)
    requires "" !in {a, b, c} && a != b && b != c && a != c && IsHypot(hypot)
    ensures var g, from := CornerMap(a, b, c, hypot), Vec(1.5, 0.0);
            && OnSegment(g.coords[a], g.coords[b], from)
            && (forall p :: StartsAt(g, from, a, b, p) <==> p == b)
            && (forall r | Answers(g, from, b, AtNode(c, Vec(2.0, 2.0)), r) ::
                  && r.Legs? && r.legs != [] && r.legs[0] == Leg(b, c, from, Vec(2.0, 2.0))
                  && forall e | e in g.edges ::
                       !OnSegment(g.coords[e.from], g.coords[e.to], Between(r.legs[0].from, r.legs[0].to, 0.5)))
  {
    hide OnSegment, IsHypot, Between;
    var g, from := CornerMap(a, b, c, hypot), Vec(1.5, 0.0);
    ThreeQuarters();
    OnAxis(hypot, 1.5);
    OnAxis(hypot, -0.5);
    EdgeToTheCorner(a, b, c, hypot);
    OffTheCorner(hypot);
    forall r | Answers(g, from, b, AtNode(c, Vec(2.0, 2.0)), r)
      ensures r.Legs? && r.legs != [] && r.legs[0] == Leg(b, c, from, Vec(2.0, 2.0))
    {
      var via :| Shortest(g, via, b, c) && Follows(g, from, via, AtNode(c, Vec(2.0, 2.0)), r.legs);
      OneWayToTheCorner(a, b, c, hypot, via);
      assert r.legs[0] == Hop(g, from, via, 0);
    }
  }

  lemma ThreeQuarters()
    ensures OnSegment(Vec(0.0, 0.0), Vec(2.0, 0.0), Vec(1.5, 0.0))
  {
    assert Vec(1.5, 0.0) == Between(Vec(0.0, 0.0), Vec(2.0, 0.0), 0.75);
  }
}
