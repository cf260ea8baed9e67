/** From a province path to the legs a unit travels. */
module Routes {
  import opened Geometry
  import opened Maps
  import opened Router

  /** One straight segment along the movement graph. */
  datatype Leg = Leg(fromProv: string, toProv: string, from: Vec, to: Vec)

  /** A destination: a province, or the point at parameter t of an edge. */
  datatype Target =
    | AtNode(province: string, pos: Vec)
    | OnEdge(edgeFrom: string, edgeTo: string, t: real, pos: Vec)
  {
    function GoalProvince(): string {
      match this
      case AtNode(p, _) => p
      case OnEdge(a, b, t, _) => if t <= 0.5 then a else b
    }
  }

  datatype Route = NoRoute | Legs(legs: seq<Leg>)

  /** Where the unit stands on reaching via[i]. */
  ghost function Stop(graph: Graph, from: Vec, via: seq<string>, i: nat): Vec
    requires i < |via|
  {
    if i == 0 then from else graph.Coord(via[i])
  }

  ghost function Hop(graph: Graph, from: Vec, via: seq<string>, i: nat): Leg
    requires i + 1 < |via|
  {
    Leg(via[i], via[i + 1], Stop(graph, from, via, i), Stop(graph, from, via, i + 1))
  }

  /** The legs visit the provinces of `via` in order, centre to centre, and then make for the
      exact target unless they already stand on it. */
  ghost predicate Follows(graph: Graph, from: Vec, via: seq<string>, target: Target, legs: seq<Leg>) {
    && |via| > 0
    && (forall i {:trigger legs[i]} | 0 <= i < |legs| && i + 1 < |via| :: legs[i] == Hop(graph, from, via, i))
    && var n := |via| - 1;
       if n > 0 && Stop(graph, from, via, n) == target.pos then |legs| == n
       else |legs| == n + 1
            && legs[n] == Leg(via[n], target.GoalProvince(), Stop(graph, from, via, n), target.pos)
  }

  /** Legs chain end to start, in space and in provinces. */
  ghost predicate Chained(legs: seq<Leg>) {
    forall i {:trigger MeetsAt(legs, i)} | 0 < i < |legs| :: MeetsAt(legs, i)
  }

  ghost predicate MeetsAt(legs: seq<Leg>, i: int)
    requires 0 < i < |legs|
  {
    legs[i - 1].to == legs[i].from && legs[i - 1].toProv == legs[i].fromProv
  }

  /** What a unit may rely on: legs that chain from where it is to the target, between provinces joined
      by edges, with at most a last hop inside the goal province.  The first leg is labelled with the start
      province, but runs straight from where the unit is. */
  ghost predicate Drives(graph: Graph, from: Vec, startProv: string, target: Target, legs: seq<Leg>) {
    && |legs| > 0 && Chained(legs)
    && legs[0].from == from && legs[0].fromProv == startProv
    && legs[|legs| - 1].to == target.pos && legs[|legs| - 1].toProv == target.GoalProvince()
    && forall i | 0 <= i < |legs| ::
         || graph.HasEdge(legs[i].fromProv, legs[i].toProv)
         || (i == |legs| - 1 && legs[i].fromProv == legs[i].toProv)
  }

  lemma FollowingDrives(graph: Graph, from: Vec, via: seq<string>, target: Target, legs: seq<Leg>)
    requires graph.IsWalk(via) && via[|via| - 1] == target.GoalProvince()
    requires Follows(graph, from, via, target, legs)
    ensures Drives(graph, from, via[0], target, legs)
  {
    forall i | 0 <= i < |legs|
      ensures graph.HasEdge(legs[i].fromProv, legs[i].toProv) || (i == |legs| - 1 && legs[i].fromProv == legs[i].toProv)
    {
      if i + 1 < |via| {
        assert legs[i] == Hop(graph, from, via, i);
        assert graph.HasEdge(via[i], via[i + 1]);
      }
    }
    forall i | 0 < i < |legs|
      ensures MeetsAt(legs, i)
    {
      assert legs[i - 1] == Hop(graph, from, via, i - 1);
      assert i + 1 < |via| ==> legs[i] == Hop(graph, from, via, i);
    }
    assert |via| > 1 ==> legs[0] == Hop(graph, from, via, 0);
    assert |legs| < |via| ==> legs[|legs| - 1] == Hop(graph, from, via, |legs| - 1);
  }

  /** The right answer to a request for a route: an unbroken line of legs along a shortest path, or
      none when there is no way. */
  ghost predicate Answers(graph: Graph, from: Vec, startProv: string, target: Target, r: Route) {
    var goalProv := target.GoalProvince();
    if r.Legs? then
      && startProv != "" && goalProv != "" && Drives(graph, from, startProv, target, r.legs)
      && exists via :: Shortest(graph, via, startProv, goalProv) && Follows(graph, from, via, target, r.legs)
    else startProv == "" || goalProv == "" || !Reachable(graph, startProv, goalProv)
  }

  /** The route from a position in startProv to the target. */
  method RouteFromProvince(graph: Graph, from: Vec, startProv: string, target: Target) returns (r: Route)
    requires graph.Sound()
    ensures Answers(graph, from, startProv, target, r)
  {
    var goalProv := target.GoalProvince();
    if startProv == "" || goalProv == "" {
      return NoRoute;
    }
    var path;
    if startProv != goalProv {
      var ok;
      ghost var pops;
      path, ok, pops := AStar(graph, startProv, goalProv);
      if !ok {
        return NoRoute;
      }
    } else {
      path := [startProv];
      StayingIsShortest(graph, startProv);
    }
    var legs := LegsAlong(graph, from, path, target);
    r := Legs(legs);
    FollowingDrives(graph, from, path, target, legs);
  }

  /** The leg list along a province path that ends in the goal province. */
  method LegsAlong(graph: Graph, from: Vec, path: seq<string>, target: Target) returns (legs: seq<Leg>)
    requires |path| > 0 && path[|path| - 1] == target.GoalProvince()
    ensures Follows(graph, from, path, target, legs)
  {
    legs := [];
    var cur, curProv := from, path[0];
    for i := 1 to |path|
      invariant |legs| == i - 1 && curProv == path[i - 1] && cur == Stop(graph, from, path, i - 1)
      invariant forall k {:trigger legs[k]} | 0 <= k < |legs| :: legs[k] == Hop(graph, from, path, k)
    {
      var next := path[i];
      var c := graph.Coord(next);
      legs := legs + [Leg(curProv, next, cur, c)];
      cur, curProv := c, next;
    }
    if |legs| == 0 || legs[|legs| - 1].to != target.pos {
      legs := legs + [Leg(curProv, target.GoalProvince(), cur, target.pos)];
    }
    if |legs| == 0 {
      assert false;
    }
  }

  lemma StayingIsShortest(graph: Graph, p: string)
    requires graph.Sound()
    ensures Shortest(graph, [p], p, p) && Reachable(graph, p, p)
  {
    assert graph.Connects([p], p, p);
    forall w | graph.Connects(w, p, p)
      ensures graph.Length([p]) <= graph.Length(w)
    {
      graph.EstimateAlongWalk(w, p);
    }
  }

  /** p is a province whose centre no other is closer to, or "" if there is none in range. */
  ghost predicate Nearest(graph: Graph, at: Vec, p: string) {
    if p == "" then
      forall q | q in graph.coords :: MAX_FLOAT <= Distance(graph.hypot, at, graph.coords[q])
    else
      && p in graph.coords && Distance(graph.hypot, at, graph.coords[p]) < MAX_FLOAT
      && forall q | q in graph.coords ::
           Distance(graph.hypot, at, graph.coords[p]) <= Distance(graph.hypot, at, graph.coords[q])
  }

  /** The province nearest to a point; ties fall to the map's iteration order. */
  method NearestProvinceID(graph: Graph, at: Vec) returns (best: string)
    requires "" !in graph.coords
    ensures Nearest(graph, at, best)
  {
    best := "";
    var bestD := MAX_FLOAT;
    var rest := graph.coords.Keys;
    while rest != {}
      invariant rest <= graph.coords.Keys && bestD <= MAX_FLOAT
      invariant best == "" ==> bestD == MAX_FLOAT
      invariant best != "" ==> best in graph.coords
      invariant best != "" ==> bestD == Distance(graph.hypot, at, graph.coords[best]) < MAX_FLOAT
      invariant forall q | q in graph.coords && q !in rest :: bestD <= Distance(graph.hypot, at, graph.coords[q])
      decreases rest
    {
      var id :| id in rest;
      var d := Distance(graph.hypot, at, graph.coords[id]);
      if d < bestD {
        bestD, best := d, id;
      }
      rest := rest - {id};
    }
  }

  /** The start province of a unit on the edge (edgeFrom, edgeTo): the closer endpoint, if the
      edge is a real one, else the nearest province. */
  ghost predicate StartsAt(graph: Graph, at: Vec, edgeFrom: string, edgeTo: string, p: string) {
    if edgeFrom == "" || edgeTo == "" || edgeFrom == edgeTo || edgeFrom !in graph.coords || edgeTo !in graph.coords then
      Nearest(graph, at, p)
    else
      && p in {edgeFrom, edgeTo}
      && Distance(graph.hypot, at, graph.coords[p]) <= Distance(graph.hypot, at, graph.coords[edgeFrom])
      && Distance(graph.hypot, at, graph.coords[p]) <= Distance(graph.hypot, at, graph.coords[edgeTo])
      && (p == edgeTo ==>
            Distance(graph.hypot, at, graph.coords[edgeTo]) < Distance(graph.hypot, at, graph.coords[edgeFrom]))
  }

  method ResolveStartOnEdge(graph: Graph, at: Vec, edgeFrom: string, edgeTo: string) returns (p: string)
    requires "" !in graph.coords
    ensures StartsAt(graph, at, edgeFrom, edgeTo, p)
  {
    if edgeFrom == "" || edgeTo == "" || edgeFrom == edgeTo {
      p := NearestProvinceID(graph, at);
      return;
    }
    if edgeFrom !in graph.coords || edgeTo !in graph.coords {
      p := NearestProvinceID(graph, at);
      return;
    }
    var distA := Distance(graph.hypot, at, graph.coords[edgeFrom]);
    var distB := Distance(graph.hypot, at, graph.coords[edgeTo]);
    p := if distA <= distB then edgeFrom else edgeTo;
  }

  /** RouteFromEdge: never starts from a province off the unit's own edge. */
  method RouteFromEdge(graph: Graph, from: Vec, edgeFrom: string, edgeTo: string, target: Target) returns (r: Route)
    requires graph.Sound()
    ensures exists p :: StartsAt(graph, from, edgeFrom, edgeTo, p) && Answers(graph, from, p, target, r)
  {
    var p := ResolveStartOnEdge(graph, from, edgeFrom, edgeTo);
    r := RouteFromProvince(graph, from, p, target);
  }
}
