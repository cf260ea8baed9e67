/** Routes and treaties: the router plans without looking at diplomacy, so a way around is not taken. */
module Detours {
  import opened Geometry
  import opened Maps
  import opened Router
  import opened Routes
  import opened Diplomacy
  import opened Units
  import opened MatchState
  import opened Maneuvers

  /** A short way from a to t by x, and a long one by y; x belongs to another slot. */
  datatype Fork = Fork(a: string, x: string, t: string, y: string, slot: string, other: string) {
    predicate Proper() {
      && "" !in {a, x, t, y, slot, other} && slot != other
      && a != x && a != t && a != y && x != t && x != y && t != y
    }

    function World(hypot: (real, real) -> real): Graph {
      Graph(map[a := Vec(0.0, 0.0), x := Vec(1.0, 0.0), t := Vec(2.0, 0.0), y := Vec(10.0, 0.0)],
            [Edge(a, x), Edge(x, t), Edge(a, y), Edge(y, t)], hypot)
    }

    function Provinces(): ProvinceTable {
      map[a := Province(a, Vec(0.0, 0.0), slot, true), x := Province(x, Vec(1.0, 0.0), other, true),
          t := Province(t, Vec(2.0, 0.0), slot, false), y := Province(y, Vec(10.0, 0.0), slot, false)]
    }

    function Bound(): Target {
      AtNode(t, Vec(2.0, 0.0))
    }

    /** The way by y. */
    function WayAround(): seq<Leg> {
      [Leg(a, y, Vec(0.0, 0.0), Vec(10.0, 0.0)), Leg(y, t, Vec(10.0, 0.0), Vec(2.0, 0.0))]
    }

    /** The slots have made peace, and no more. */
    ghost function Truce(): Ledger {
      EMPTY.After(Propose(other, slot, PeaceOffer), 0).After(Accept(slot, other, PeaceOffer), 0)
    }
  }

  lemma WorldIsSound(f: Fork, hypot: (real, real) -> real)
    requires f.Proper() && IsHypot(hypot) && Measures(hypot)
    ensures f.World(hypot).Sound()
  {
    hide IsHypot;
    var g := f.World(hypot);
    forall p, q | p in g.coords && q in g.coords
      ensures Distance(hypot, g.coords[p], g.coords[q]) <= MAX_FLOAT
    {
      assert p in {f.a, f.x, f.t, f.y} && q in {f.a, f.x, f.t, f.y};
    }
  }

  lemma TwoSteps(f: Fork, hypot: (real, real) -> real)
    requires f.Proper() && Measures(hypot)
    ensures f.World(hypot).Connects([f.a, f.x, f.t], f.a, f.t) && f.World(hypot).Length([f.a, f.x, f.t]) == 2.0
  {
    var g, short := f.World(hypot), [f.a, f.x, f.t];
    assert Joins(g.edges[0], f.a, f.x) && Joins(g.edges[1], f.x, f.t);
    assert short[1..] == [f.x, f.t] && [f.x, f.t][1..] == [f.t];
    assert g.Length([f.x, f.t]) == g.Dist(f.x, f.t) + g.Length([f.t]);
    assert g.Length(short) == g.Dist(f.a, f.x) + g.Length([f.x, f.t]);
  }

  lemma NextToA(f: Fork, hypot: (real, real) -> real, v: string)
    requires f.Proper() && f.World(hypot).HasEdge(f.a, v)
    ensures v == f.x || v == f.y
  {
  }

  lemma ToY(f: Fork, hypot: (real, real) -> real)
    requires f.Proper() && Measures(hypot)
    ensures f.World(hypot).Dist(f.a, f.y) == 10.0
  {
  }

  /** Going by y is too long. */
  lemma TheFirstStep(f: Fork, hypot: (real, real) -> real, via: seq<string>)
    requires f.Proper() && f.World(hypot).Sound() && Measures(hypot)
    requires f.World(hypot).Connects(via, f.a, f.t) && f.World(hypot).Length(via) <= 2.0
    ensures |via| > 1 && via[1] == f.x
  {
    hide Graph.Sound, Measures, Fork.World, Graph.Dist, Graph.HasEdge;
    var g := f.World(hypot);
    assert |via| > 1;
    g.WalkTail(via);
    g.EstimateAlongWalk(via[1..], f.t);
    NextToA(f, hypot, via[1]);
    ToY(f, hypot);
  }

  /** The shortest path from a to t is the one by x. */
  lemma TheShortWay(f: Fork, hypot: (real, real) -> real, via: seq<string>)
    requires f.Proper() && f.World(hypot).Sound() && Measures(hypot)
    requires Shortest(f.World(hypot), via, f.a, f.t)
    ensures via == [f.a, f.x, f.t]
  {
    hide Graph.Sound, Measures, Graph.Length;
    var g := f.World(hypot);
    TwoSteps(f, hypot);
    TheFirstStep(f, hypot, via);
    assert |via| > 2;
    assert g.HasEdge(via[1], via[1 + 1]);
    assert via[2] == f.t;
  }

  /** So no answer of the router is permitted. */
  lemma TheShortWayIsBarred(f: Fork, hypot: (real, real) -> real, legs: seq<Leg>)
    requires f.Proper() && f.World(hypot).Sound() && Measures(hypot)
    requires Answers(f.World(hypot), Vec(0.0, 0.0), f.a, f.Bound(), Legs(legs))
    ensures Barred(f.Truce(), f.Provinces(), f.slot, legs)
  {
    hide Graph.Sound, Shortest;
    var g := f.World(hypot);
    var via :| Shortest(g, via, f.a, f.t) && Follows(g, Vec(0.0, 0.0), via, f.Bound(), legs);
    TheShortWay(f, hypot, via);
    assert legs[0] == Hop(g, Vec(0.0, 0.0), via, 0);
    XIsBarred(f);
  }

  lemma XIsBarred(f: Fork)
    requires f.Proper()
    ensures forall p :: LegBlocked(f.Truce(), f.Provinces(), f.slot, p) <==> p == f.x
  {
    SortedPairSymmetric(f.slot, f.other);
  }

  lemma TheWayAroundIsOpen(f: Fork, hypot: (real, real) -> real)
    requires f.Proper()
    ensures Drives(f.World(hypot), Vec(0.0, 0.0), f.a, f.Bound(), f.WayAround())
    ensures !Barred(f.Truce(), f.Provinces(), f.slot, f.WayAround())
  {
    XIsBarred(f);
    assert Joins(f.World(hypot).edges[2], f.a, f.y) && Joins(f.World(hypot).edges[3], f.y, f.t);
  }

  lemma StartsFromTheFork(f: Fork, hypot: (real, real) -> real, p: string)
    requires f.Proper() && Measures(hypot)
    ensures StartsAt(f.World(hypot), Vec(0.0, 0.0), f.a, f.a, p) <==> p == f.a
  {
    var g := f.World(hypot);
    forall q | q in g.coords
      ensures q != f.a ==> 1.0 <= Distance(hypot, Vec(0.0, 0.0), g.coords[q])
    {
      assert q in {f.a, f.x, f.t, f.y};
    }
    assert Distance(hypot, Vec(0.0, 0.0), g.coords[f.a]) == 0.0;
  }

  /** A unit at rest in a that wants to go to t: whatever the router answers is barred, though there is a line of
      legs to t, by y, that diplomacy permits. */
  lemma {:induction false} NoWayAround(f: Fork, hypot: (real, real) -> real, u: Unit)
    requires f.Proper() && IsHypot(hypot) && u.owner == f.slot && u.origin == u.dest == f.a
    ensures var g, from := f.World(hypot), Vec(0.0, 0.0);
            && (forall legs :: !Routed(f.Truce(), g, f.Provinces(), u, from, f.Bound(), legs))
            && !Answered(g, u, from, f.Bound(), NoRoute)
            && ShutOut(f.Truce(), g, f.Provinces(), u, from, f.Bound())
            && Drives(g, from, f.a, f.Bound(), f.WayAround())
            && !Barred(f.Truce(), f.Provinces(), f.slot, f.WayAround())
  {
    hide StartsAt, Answers, Barred, Drives, IsHypot, Graph.Sound, Fork.Truce;
    var g, from := f.World(hypot), Vec(0.0, 0.0);
    TheNormMeasures(hypot);
    WorldIsSound(f, hypot);
    TheWayAroundIsOpen(f, hypot);
    forall p
      ensures StartsAt(g, from, u.origin, u.dest, p) <==> p == f.a
    {
      StartsFromTheFork(f, hypot, p);
    }
    forall legs | Answers(g, from, f.a, f.Bound(), Legs(legs))
      ensures Barred(f.Truce(), f.Provinces(), f.slot, legs)
    {
      TheShortWayIsBarred(f, hypot, legs);
    }
    var legs := TheRouterAnswers(f, hypot);
    assert StartsAt(g, from, u.origin, u.dest, f.a);
  }

  lemma TheRouterAnswers(f: Fork, hypot: (real, real) -> real) returns (legs: seq<Leg>)
    requires f.Proper() && f.World(hypot).Sound() && Measures(hypot)
    ensures Answers(f.World(hypot), Vec(0.0, 0.0), f.a, f.Bound(), Legs(legs))
    ensures !Answers(f.World(hypot), Vec(0.0, 0.0), f.a, f.Bound(), NoRoute)
  {
    hide Graph.Sound;
    var g, short := f.World(hypot), [f.a, f.x, f.t];
    TwoSteps(f, hypot);
    forall w | g.Connects(w, f.a, f.t)
      ensures g.Length(short) <= g.Length(w)
    {
      g.EstimateAlongWalk(w, f.t);
    }
    legs := [Leg(f.a, f.x, Vec(0.0, 0.0), Vec(1.0, 0.0)), Leg(f.x, f.t, Vec(1.0, 0.0), Vec(2.0, 0.0))];
    assert Shortest(g, short, f.a, f.t) && Follows(g, Vec(0.0, 0.0), short, f.Bound(), legs);
    FollowingDrives(g, Vec(0.0, 0.0), short, f.Bound(), legs);
  }
}
