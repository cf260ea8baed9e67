/** The movement graph: province centres, undirected edges, and walks along them. */
module Maps {
  import opened StringOrder
  import opened Geometry

  datatype Edge = Edge(from: string, to: string)

  /** math.MaxFloat64, the distance reported when a province has no coordinates. */
  const MAX_FLOAT: real := 179769313486231570814527423731704356798070567525844996598917476803157260780028538760589558632766878171540458953514382464234321326889464182768467546703537516986049910576551282076245490090389328944075868508455133942304583236903222948165808559332123347764797926204144723168738177180919299881250404026184124858368.0

  predicate Joins(e: Edge, a: string, b: string) {
    (e.from == a && e.to == b) || (e.from == b && e.to == a)
  }

  datatype Graph = Graph(coords: map<string, Vec>, edges: seq<Edge>, hypot: (real, real) -> real)
  {
    predicate HasEdge(a: string, b: string) {
      exists k | 0 <= k < |edges| :: Joins(edges[k], a, b)
    }

    function Dist(a: string, b: string): real {
      if a in coords && b in coords then Distance(hypot, coords[a], coords[b]) else MAX_FLOAT
    }

    /** The coordinates of a province; Go's zero value when there is none. */
    function Coord(id: string): Vec {
      if id in coords then coords[id] else Vec(0.0, 0.0)
    }

    /** Hypot is the Euclidean norm, no two centres are further apart than a float can
        say, and the empty id, which the code uses for "none", names no province.  Edge
        endpoints need not be provinces. */
    ghost predicate Sound() {
      && IsHypot(hypot)
      && (forall a, b | a in coords && b in coords :: Distance(hypot, coords[a], coords[b]) <= MAX_FLOAT)
      && "" !in coords
      && forall k | 0 <= k < |edges| :: edges[k].from != "" && edges[k].to != ""
    }

    /** Every id an edge mentions. */
    ghost function Endpoints(): set<string> {
      (set k | 0 <= k < |edges| :: edges[k].from) + (set k | 0 <= k < |edges| :: edges[k].to)
    }

    lemma DistLaws(a: string, b: string, c: string)
      requires Sound()
      ensures 0.0 <= Dist(a, b) == Dist(b, a)
      ensures Dist(a, c) <= Dist(a, b) + Dist(b, c)
    {
      if a in coords && b in coords {
        DistanceIsMetric(hypot, coords[a], coords[b], coords[a]);
        if c in coords {
          DistanceIsMetric(hypot, coords[a], coords[b], coords[c]);
        }
      }
      if b in coords && c in coords {
        DistanceIsMetric(hypot, coords[b], coords[c], coords[b]);
      }
    }

    lemma EdgeEnds(a: string, b: string)
      requires HasEdge(a, b)
      ensures a in Endpoints() && b in Endpoints() && HasEdge(b, a)
      ensures Sound() ==> a != "" && b != ""
    {
      var k :| 0 <= k < |edges| && Joins(edges[k], a, b);
      assert edges[k].from in Endpoints() && edges[k].to in Endpoints();
      assert Joins(edges[k], b, a);
    }

    ghost predicate IsWalk(w: seq<string>) {
      |w| > 0 && forall i | 0 <= i < |w| - 1 :: HasEdge(w[i], w[i + 1])
    }

    ghost predicate Connects(w: seq<string>, a: string, b: string) {
      IsWalk(w) && w[0] == a && w[|w| - 1] == b
    }

    ghost function Length(w: seq<string>): real {
      if |w| <= 1 then 0.0 else Dist(w[0], w[1]) + Length(w[1..])
    }

    lemma WalkTail(w: seq<string>)
      requires IsWalk(w) && |w| > 1
      ensures IsWalk(w[1..]) && w[1..][|w| - 2] == w[|w| - 1] && HasEdge(w[0], w[1])
    {
      forall i | 0 <= i < |w| - 2
        ensures HasEdge(w[1..][i], w[1..][i + 1])
      {
        assert HasEdge(w[i + 1], w[i + 1 + 1]);
      }
      assert HasEdge(w[0], w[0 + 1]);
    }

    lemma WalkCons(a: string, w: seq<string>)
      requires IsWalk(w) && HasEdge(a, w[0])
      ensures IsWalk([a] + w) && Length([a] + w) == Dist(a, w[0]) + Length(w)
    {
      var v := [a] + w;
      forall i | 0 <= i < |v| - 1
        ensures HasEdge(v[i], v[i + 1])
      {
        assert i > 0 ==> HasEdge(w[i - 1], w[i - 1 + 1]);
      }
      assert v[1..] == w;
    }

    /** The straight-line estimate to the goal drops by no more than the length walked. */
    lemma {:induction false} EstimateAlongWalk(w: seq<string>, goal: string)
      requires Sound() && IsWalk(w)
      ensures 0.0 <= Length(w)
      ensures Dist(w[0], goal) <= Length(w) + Dist(w[|w| - 1], goal)
      decreases |w|
    {
      if |w| == 1 {
      } else {
        WalkTail(w);
        EstimateAlongWalk(w[1..], goal);
        DistLaws(w[0], w[1], goal);
      }
    }
  }

  /** Map.Neighbors: every id sharing an edge with id, once each, sorted. */
  method Neighbors(g: Graph, id: string) returns (out: seq<string>)
    ensures Sorted(out)
    ensures forall x :: x in out <==> g.HasEdge(id, x)
  {
    var seen: set<string> := {};
    for i := 0 to |g.edges|
      invariant forall x :: x in seen <==> exists k | 0 <= k < i :: Joins(g.edges[k], id, x)
    {
      var e := g.edges[i];
      ghost var was := seen;
      if e.from == id {
        seen := seen + {e.to};
      } else if e.to == id {
        seen := seen + {e.from};
      }
      assert forall x :: x in seen <==> x in was || Joins(g.edges[i], id, x);
    }
    out := SortedKeys(seen);
    assert forall x :: x in out <==> x in Elements(out);
  }
}
