/** Two matches in which a queued move does harm.  A unit goes from a to b, a distance of 1 away; the moment
    its leg has ended, and before anyone has noticed, its next order comes. */
module Mishaps {
  import opened Clock
  import opened Geometry
  import opened Spatial
  import opened StringOrder
  import opened Maps
  import opened Router
  import opened Routes
  import opened Diplomacy
  import opened Timelines
  import opened Workloads
  import opened Units
  import opened Economy
  import opened MatchState
  import opened Agendas
  import opened Maneuvers
  import opened Chronicles
  import opened Histories
  import opened Setups
  import opened Matches
  import opened Visibility
  import opened Commands
  import opened Turns

  /** Three provinces and a slot. */
  datatype Cast = Cast(a: string, b: string, c: string, slot: string) {
    predicate Proper() {
      "" !in {a, b, c, slot} && a != b && b != c && a != c
    }

    /** a and b are neighbours, and c is an island; one unit of infantry is stationed in a. */
    function Board(): GameMap {
      GameMap([MapProvince(a, Vec(0.0, 0.0), ""), MapProvince(b, Vec(1.0, 0.0), slot),
               MapProvince(c, Vec(5.0, 0.0), slot)],
              [Edge(a, b)], [MapSlot(slot, a)], [StartingUnit(slot, "infantry", a, 0.0)])
    }

    function World(hypot: (real, real) -> real): Graph {
      Graph(map[a := Vec(0.0, 0.0), b := Vec(1.0, 0.0), c := Vec(5.0, 0.0)], [Edge(a, b)], hypot)
    }

    function Provinces(): ProvinceTable {
      map[a := Province(a, Vec(0.0, 0.0), slot, true), b := Province(b, Vec(1.0, 0.0), slot, false),
          c := Province(c, Vec(5.0, 0.0), slot, false)]
    }

    function Infantry(id: string): Unit {
      Unit(id, slot, "infantry", 100.0, a, a, 0, 0, Vec(0.0, 0.0), Vec(0.0, 0.0), 50.0 / 3600.0, 1, [], 0, [])
    }

    function Way(): Leg {
      Leg(a, b, Vec(0.0, 0.0), Vec(1.0, 0.0))
    }

    function Bound(): Target {
      AtNode(b, Vec(1.0, 0.0))
    }

    function Island(): Target {
      AtNode(c, Vec(5.0, 0.0))
    }

    /** The unit on its way, due in 72 seconds. */
    function Marching(id: string): Unit {
      Infantry(id).(path := [PathLeg(a, b, Vec(0.0, 0.0), Vec(1.0, 0.0), 72 * SECOND)], origin := a, dest := b,
                    destPos := Vec(1.0, 0.0), arrivesAt := 72 * SECOND, version := 2)
    }

    /** Go to b now; and when 72 seconds have passed: then go on to `next`. */
    function Orders(id: string, next: Target): seq<Input>
      requires next.AtNode?
    {
      [Ask(slot, Move(id, ByNode(b, Vec(1.0, 0.0)), false), 0),
       Ask(slot, Move(id, ByNode(next.province, next.pos), true), 72 * SECOND)]
    }
  }

  // ---------- the map ----------

  lemma BoardIsSensible(cast: Cast, hypot: (real, real) -> real)
    requires cast.Proper() && IsHypot(hypot)
    ensures Setups.Sensible(cast.Board(), hypot) && Deployable(cast.Board().provinces, cast.Board().startingUnits)
  {
    hide IsHypot;
    TheNormMeasures(hypot);
    var ps := cast.Board().provinces;
    forall i, j | 0 <= i < |ps| && 0 <= j < |ps|
      ensures Distance(hypot, ps[i].pos, ps[j].pos) <= MAX_FLOAT
    {
      assert i in {0, 1, 2} && j in {0, 1, 2};
    }
    assert ps[0].id == cast.a;
    assert SlotIds(cast.Board().slots) == {cast.slot} by {
      assert cast.Board().slots[0].id == cast.slot;
    }
  }

  lemma OnlyAIsClaimed(cast: Cast)
    requires cast.Proper()
    ensures forall k, p :: LastClaim(cast.Board().slots, k, p) <==> k == 0 && p == cast.a
  {
  }

  lemma EachIsMentionedOnce(cast: Cast, p: string, i: int)
    requires cast.Proper() && LastEntry(cast.Board().provinces, i, p)
    ensures (i == 0 && p == cast.a) || (i == 1 && p == cast.b) || (i == 2 && p == cast.c)
  {
    assert i in {0, 1, 2};
  }

  /** The provinces are those of the map. */
  lemma TheProvinces(cast: Cast, provinces: ProvinceTable)
    requires cast.Proper() && Founded(cast.Board().provinces, cast.Board().slots, provinces)
    ensures provinces == cast.Provinces()
  {
    hide LastClaim, LastEntry;
    var ps, slots := cast.Board().provinces, cast.Board().slots;
    assert ps[0].id == cast.a && ps[1].id == cast.b && ps[2].id == cast.c;
    assert Mentions(ps, cast.a) && Mentions(ps, cast.b) && Mentions(ps, cast.c);
    OnlyAIsClaimed(cast);
    forall p | p in provinces
      ensures p in {cast.a, cast.b, cast.c} && provinces[p] == cast.Provinces()[p]
    {
      var i :| FoundedAs(ps, slots, p, i, provinces[p]);
      EachIsMentionedOnce(cast, p, i);
      assert p == cast.a ==> LastClaim(slots, 0, p);
    }
  }

  lemma TheUnit(cast: Cast, ids: seq<string>, units: UnitTable, id: string)
    requires cast.Proper() && Deployed(cast.Board().provinces, cast.Board().startingUnits, 0, ids, units) && id in units
    ensures id != "" && units == map[id := cast.Infantry(id)]
  {
    var ps, su := cast.Board().provinces, cast.Board().startingUnits[0];
    assert id in Elements(ids);
    assert ids == [id];
    assert units.Keys == {id};
    assert DeployedAs(ps, su, 0, ids[0], units);
    var p :| FirstEntry(ps, su.province, p) && units[id] == Stationed(su, id, p, 0);
    assert p == ps[0];
  }

  /** The match as it begins. */
  lemma TheOpeningScene(cast: Cast, hypot: (real, real) -> real, s: Snapshot, id: string)
    requires cast.Proper() && Starts(cast.Board(), 0, s) && id in s.a.units
    ensures id != "" && s.a.units == map[id := cast.Infantry(id)] && s.a.provinces == cast.Provinces()
    ensures s.ledger == EMPTY && s.a.active && s.a.stranded == {} && s.a.clock == 0
    ensures forall e | e in s.a.pending :: 0 < e.at
    ensures GraphOf(cast.Board(), hypot, s.a.provinces) == cast.World(hypot)
  {
    hide Founded, Deployed;
    var ids :| Deployed(cast.Board().provinces, cast.Board().startingUnits, 0, ids, s.a.units);
    TheUnit(cast, ids, s.a.units, id);
    TheProvinces(cast, s.a.provinces);
    assert (map p | p in cast.Provinces() :: cast.Provinces()[p].pos) == cast.World(hypot).coords;
  }

  // ---------- the ways ----------

  /** Nothing bars the way of the owner of everything. */
  lemma NothingIsBarred(cast: Cast, l: Ledger, legs: seq<Leg>)
    requires cast.Proper()
    ensures !Barred(l, cast.Provinces(), cast.slot, legs)
  {
    forall i | 0 <= i < |legs|
      ensures !LegBlocked(l, cast.Provinces(), cast.slot, legs[i].toProv)
    {
      assert OwnerOf(cast.Provinces(), legs[i].toProv) in {"", cast.slot};
    }
  }

  lemma StartsFromA(cast: Cast, hypot: (real, real) -> real, p: string)
    requires cast.Proper() && Measures(hypot)
    ensures StartsAt(cast.World(hypot), Vec(0.0, 0.0), cast.a, cast.a, p) <==> p == cast.a
    ensures StartsAt(cast.World(hypot), Vec(0.0, 0.0), cast.a, cast.b, p) <==> p == cast.a
  {
    var g := cast.World(hypot);
    forall q | q in g.coords
      ensures 0.0 <= Distance(hypot, Vec(0.0, 0.0), g.coords[q])
      ensures q != cast.a ==> 1.0 <= Distance(hypot, Vec(0.0, 0.0), g.coords[q])
    {
      assert q in {cast.a, cast.b, cast.c};
    }
    assert Distance(hypot, Vec(0.0, 0.0), g.coords[cast.a]) == 0.0;
  }

  /** The only simple walk from a to b is the edge. */
  lemma OneWayToB(cast: Cast, hypot: (real, real) -> real, via: seq<string>)
    requires cast.Proper() && cast.World(hypot).Connects(via, cast.a, cast.b) && Simple(via)
    ensures via == [cast.a, cast.b]
  {
    assert |via| > 1;
    assert cast.World(hypot).HasEdge(via[0], via[0 + 1]);
    assert via[1] == cast.b;
  }

  /** So every route from a to b is that edge. */
  lemma TheOnlyWay(cast: Cast, hypot: (real, real) -> real, legs: seq<Leg>)
    requires cast.Proper() && Answers(cast.World(hypot), Vec(0.0, 0.0), cast.a, cast.Bound(), Legs(legs))
    ensures legs == [cast.Way()]
  {
    var g := cast.World(hypot);
    var via :| Shortest(g, via, cast.a, cast.b) && Follows(g, Vec(0.0, 0.0), via, cast.Bound(), legs);
    OneWayToB(cast, hypot, via);
    assert legs[0] == Hop(g, Vec(0.0, 0.0), via, 0);
  }

  lemma BIsReached(cast: Cast, hypot: (real, real) -> real)
    requires cast.Proper()
    ensures !Answers(cast.World(hypot), Vec(0.0, 0.0), cast.a, cast.Bound(), Route.NoRoute)
  {
    var g := cast.World(hypot);
    assert Joins(g.edges[0], cast.a, cast.b);
    assert g.HasEdge([cast.a, cast.b][0], [cast.a, cast.b][0 + 1]);
    assert g.Connects([cast.a, cast.b], cast.a, cast.b);
  }

  /** From a the way to b is always found, and it is the edge. */
  lemma TheWayIsFound(cast: Cast, hypot: (real, real) -> real, l: Ledger, u: Unit)
    requires cast.Proper() && Measures(hypot) && u.owner == cast.slot && u.origin == cast.a
    requires u.dest in {cast.a, cast.b}
    ensures !Refused(l, cast.World(hypot), cast.Provinces(), u, Vec(0.0, 0.0), cast.Bound())
    ensures forall legs | Routed(l, cast.World(hypot), cast.Provinces(), u, Vec(0.0, 0.0), cast.Bound(), legs) ::
        legs == [cast.Way()]
  {
    hide Answers, Barred, StartsAt;
    BIsReached(cast, hypot);
    forall p
      ensures StartsAt(cast.World(hypot), Vec(0.0, 0.0), u.origin, u.dest, p) <==> p == cast.a
    {
      StartsFromA(cast, hypot, p);
    }
    forall legs: seq<Leg>
      ensures !Barred(l, cast.Provinces(), cast.slot, legs)
      ensures Answers(cast.World(hypot), Vec(0.0, 0.0), cast.a, cast.Bound(), Legs(legs)) ==> legs == [cast.Way()]
    {
      NothingIsBarred(cast, l, legs);
      if Answers(cast.World(hypot), Vec(0.0, 0.0), cast.a, cast.Bound(), Legs(legs)) {
        TheOnlyWay(cast, hypot, legs);
      }
    }
  }

  /** No walk ends on the island, unless it starts there. */
  lemma TheIslandIsAlone(cast: Cast, hypot: (real, real) -> real, w: seq<string>, p: string)
    requires cast.Proper() && cast.World(hypot).Connects(w, p, cast.c)
    ensures p == cast.c
  {
    assert |w| > 1 ==> cast.World(hypot).HasEdge(w[|w| - 2], w[|w| - 2 + 1]);
  }

  lemma NoWayToTheIsland(cast: Cast, hypot: (real, real) -> real, l: Ledger, u: Unit)
    requires cast.Proper() && Measures(hypot) && u.owner == cast.slot && u.origin == cast.a && u.dest == cast.b
    ensures forall legs :: !Routed(l, cast.World(hypot), cast.Provinces(), u, Vec(0.0, 0.0), cast.Island(), legs)
  {
    hide Barred, StartsAt, Follows, Drives;
    var g := cast.World(hypot);
    forall p
      ensures StartsAt(g, Vec(0.0, 0.0), u.origin, u.dest, p) <==> p == cast.a
    {
      StartsFromA(cast, hypot, p);
    }
    forall w | g.Connects(w, cast.a, cast.c)
      ensures false
    {
      TheIslandIsAlone(cast, hypot, w, cast.a);
    }
  }

  // ---------- the first turn ----------

  lemma TheMarch(cast: Cast, hypot: (real, real) -> real, id: string)
    requires cast.Proper() && Measures(hypot)
    ensures var u := Redirected(cast.Infantry(id));
            WithPath(u, Schedule(hypot, u.speed, [cast.Way()], 0), 0) == cast.Marching(id)
  {
    assert TravelTime(1.0, cast.Infantry(id).speed) == 72 * SECOND;
    assert [cast.Way()][..0] == [];
  }

  /** Ordered to b at time 0, the unit sets out, whatever the router does. */
  lemma TheUnitSetsOut(cast: Cast, hypot: (real, real) -> real, l: Ledger, id: string, reply: Reply, v: Unit)
    requires cast.Proper() && Measures(hypot)
    requires Directed(l, cast.World(hypot), cast.Provinces(), cast.Infantry(id), cast.Bound(), 0, reply, v)
    ensures reply == Accepted && v == cast.Marching(id)
  {
    hide Answered, ShutOut, Routed, Schedule;
    TheWayIsFound(cast, hypot, l, cast.Infantry(id));
    TheWayIsFound(cast, hypot, l, Redirected(cast.Infantry(id)));
    TheMarch(cast, hypot, id);
  }

  /** Nothing is due yet when the first turn ends: the unit is on its way. */
  lemma {:induction false} TheFirstTurn(cast: Cast, hypot: (real, real) -> real, s: Snapshot, id: string, turn: Turn)
    requires cast.Proper() && Measures(hypot) && Starts(cast.Board(), 0, s) && id in s.a.units
    requires Taken(cast.World(hypot), s, cast.Orders(id, cast.Bound())[0], turn)
    ensures turn.reply == Accepted && turn.course.events == []
    ensures var t := turn.course.Last();
            && t.a.units == map[id := cast.Marching(id)] && t.a.provinces == cast.Provinces() && t.a.active
            && t.ledger == EMPTY && t.a.stranded == {} && t.a.clock == 0 && Attainable(t.a) && t.a.busy == {}
            && forall e | e in t.a.pending :: 0 < e.at
  {
    hide Attainable, Starts, Directed, HandlesNext;
    TheOpeningScene(cast, hypot, s, id);
    var t := turn.course.first;
    assert MoveHandled(cast.World(hypot), s.At(0), cast.slot, id, ByNode(cast.b, Vec(1.0, 0.0)), false, turn.reply, t);
    TheFirstMove(cast, hypot, s, id, turn.reply, t);
    assert forall e | e in t.a.pending :: 0 < e.at;
    if turn.course.events != [] {
      assert HandlesNext(cast.World(hypot), t, turn.course.events[0], turn.course.later[0], 0);
      NotYetDue(cast.World(hypot), t, turn.course.events[0], turn.course.later[0]);
    }
  }

  lemma NotYetDue(graph: Graph, s: Snapshot, e: Event, t: Snapshot)
    requires forall o | o in s.a.pending :: 0 < o.at
    ensures !HandlesNext(graph, s, e, t, 0)
  {
    hide Handles;
  }

  lemma TheFirstMove(cast: Cast, hypot: (real, real) -> real, s: Snapshot, id: string, reply: Reply, t: Snapshot)
    requires cast.Proper() && Measures(hypot) && s.a.units == map[id := cast.Infantry(id)] && s.a.clock == 0
    requires s.a.provinces == cast.Provinces() && forall e | e in s.a.pending :: 0 < e.at
    requires MoveHandled(cast.World(hypot), s.At(0), cast.slot, id, ByNode(cast.b, Vec(1.0, 0.0)), false, reply, t)
    ensures reply == Accepted && t.a.units == map[id := cast.Marching(id)]
    ensures forall e | e in t.a.pending :: 0 < e.at
    ensures t == s.(a := s.a.(units := t.a.units, stranded := t.a.stranded, pending := t.a.pending))
    ensures s.a.stranded == {} ==> t.a.stranded == {}
  {
    hide Directed;
    TheUnitSetsOut(cast, hypot, s.ledger, id, reply, t.a.units[id]);
  }

  // ---------- the second turn ----------

  /** The second order finds the unit at the end of its leg, and is a queued move to `next`. */
  lemma {:induction false} TheSecondMove(cast: Cast, hypot: (real, real) -> real, s: Snapshot, id: string, next: Target,
                                         turn: Turn)
    requires cast.Proper() && next.AtNode? && next.province != "" && id != ""
    requires s.a.units == map[id := cast.Marching(id)] && s.a.provinces == cast.Provinces() && s.a.active
    requires Taken(cast.World(hypot), s, cast.Orders(id, next)[1], turn)
    ensures var t := turn.course.first;
            && id in t.a.units && t.a.clock == 72 * SECOND && Attainable(t.a) && t.a.busy == {}
            && QueuedUp(s.ledger, cast.World(hypot), cast.Provinces(), cast.Marching(id), next, 72 * SECOND, turn.reply,
                 t.a.units[id])
            && (turn.reply == BlockedByTreaty ==> id in t.a.stranded)
  {
    hide Attainable, QueuedUp, Course.Ok;
    var t := turn.course.first;
    assert MoveHandled(cast.World(hypot), s.At(72 * SECOND), cast.slot, id, ByNode(next.province, next.pos), true,
        turn.reply, t);
  }

  /** Any way to b starts from a, for the record of a unit that has just come to b. */
  lemma BackToA(cast: Cast, hypot: (real, real) -> real, l: Ledger, id: string, reply: Reply, v: Unit)
    requires cast.Proper() && Measures(hypot)
    requires QueuedUp(l, cast.World(hypot), cast.Provinces(), cast.Marching(id), cast.Bound(), 72 * SECOND, reply, v)
    ensures reply == Accepted && v.PositionAt(72 * SECOND) == Vec(0.0, 0.0)
  {
    hide Answered, ShutOut, Routed, Schedule;
    var u := NewOrder(WithWaypoint(cast.Marching(id), cast.Bound()));
    TheWayIsFound(cast, hypot, l, u);
    DeparturesAreContinuous(l, cast.World(hypot), cast.Provinces(), NextWaypointTaken(u), Vec(0.0, 0.0), cast.Bound(),
        72 * SECOND, v);
  }

  lemma NothingToTheIsland(cast: Cast, hypot: (real, real) -> real, l: Ledger, id: string, reply: Reply, v: Unit)
    requires cast.Proper() && Measures(hypot)
    requires QueuedUp(l, cast.World(hypot), cast.Provinces(), cast.Marching(id), cast.Island(), 72 * SECOND, reply, v)
    ensures reply == BlockedByTreaty && v.HasLeg()
  {
    hide Refused, Routed, Schedule;
    var u := NewOrder(WithWaypoint(cast.Marching(id), cast.Island()));
    NoWayToTheIsland(cast, hypot, l, NextWaypointTaken(u));
  }

  /** The unit waits for its arrival in b. */
  lemma TheUnitIsAwaited(cast: Cast, a: Agenda, id: string)
    requires Attainable(a) && a.busy == {} && a.units == map[id := cast.Marching(id)] && a.stranded == {}
    ensures Awaited(a.units, a.pending, id)
  {
    ArrivesUnlessStranded(a, id);
  }

  /** In every run of a match on this map in which the unit, the moment its leg has ended but before its arrival
      is handled, is ordered to go on to b after what it is doing: that order is accepted, and puts the unit
      back to a. */
  lemma {:induction false} QueueingTeleports(cast: Cast, hypot: (real, real) -> real, s: Snapshot, id: string,
                                             turns: seq<Turn>)
    requires cast.Proper() && IsHypot(hypot) && Starts(cast.Board(), 0, s) && id in s.a.units
    requires Runs(cast.World(hypot), s, cast.Orders(id, cast.Bound()), turns) && |turns| == 2
    ensures turns[0].reply == Accepted && turns[1].reply == Accepted
    ensures var before, after := turns[0].course.Last(), turns[1].course.first;
            && id in before.a.units && id in after.a.units && after.a.clock == 72 * SECOND
            && Awaited(before.a.units, before.a.pending, id)
            && before.a.units[id].PositionAt(72 * SECOND) == Vec(1.0, 0.0)
            && after.a.units[id].PositionAt(72 * SECOND) == Vec(0.0, 0.0)
  {
    hide Attainable, Taken, Starts, QueuedUp, IsHypot, GoesOn;
    TheNormMeasures(hypot);
    TheOpeningScene(cast, hypot, s, id);
    assert Taken(cast.World(hypot), MomentAfter(s, turns, 0), cast.Orders(id, cast.Bound())[0], turns[0]);
    TheFirstTurn(cast, hypot, s, id, turns[0]);
    var before := turns[0].course.Last();
    TheUnitIsAwaited(cast, before.a, id);
    assert Taken(cast.World(hypot), MomentAfter(s, turns, 1), cast.Orders(id, cast.Bound())[1], turns[1]);
    TheSecondMove(cast, hypot, before, id, cast.Bound(), turns[1]);
    BackToA(cast, hypot, before.ledger, id, turns[1].reply, turns[1].course.first.a.units[id]);
  }

  /** In every such run in which it is ordered to go on to the island instead: that order is refused, and
      the unit is left with a leg that has ended and an arrival that nobody will act on. */
  lemma {:induction false} QueueingStrands(cast: Cast, hypot: (real, real) -> real, s: Snapshot, id: string,
                                           turns: seq<Turn>)
    requires cast.Proper() && IsHypot(hypot) && Starts(cast.Board(), 0, s) && id in s.a.units
    requires Runs(cast.World(hypot), s, cast.Orders(id, cast.Island()), turns) && |turns| == 2
    ensures turns[0].reply == Accepted && turns[1].reply == BlockedByTreaty
    ensures var before, after := turns[0].course.Last(), turns[1].course.Last();
            && id in before.a.units && Awaited(before.a.units, before.a.pending, id)
            && id in after.a.units && after.a.units[id].HasLeg() && !Awaited(after.a.units, after.a.pending, id)
  {
    hide Attainable, Starts, QueuedUp, IsHypot, GoesOn, Dispatched;
    TheNormMeasures(hypot);
    TheOpeningScene(cast, hypot, s, id);
    assert Taken(cast.World(hypot), MomentAfter(s, turns, 0), cast.Orders(id, cast.Island())[0], turns[0]);
    TheFirstTurn(cast, hypot, s, id, turns[0]);
    var before := turns[0].course.Last();
    TheUnitIsAwaited(cast, before.a, id);
    assert Taken(cast.World(hypot), MomentAfter(s, turns, 1), cast.Orders(id, cast.Island())[1], turns[1]);
    TheSecondMove(cast, hypot, before, id, cast.Island(), turns[1]);
    NothingToTheIsland(cast, hypot, before.ledger, id, turns[1].reply, turns[1].course.first.a.units[id]);
    ArrivesUnlessStranded(turns[1].course.Last().a, id);
  }

  // ---------- the matches are played ----------

  lemma OneTurnIsNotAll(cast: Cast, hypot: (real, real) -> real, s: Snapshot, id: string, next: Target, turn: Turn,
                        e: Event)
    requires cast.Proper() && Measures(hypot) && Starts(cast.Board(), 0, s) && id in s.a.units && next.AtNode?
    requires Taken(cast.World(hypot), s, cast.Orders(id, next)[0], turn)
    ensures !HangsAt(cast.World(hypot), cast.Orders(id, next)[0], turn, e)
    ensures !Over(cast.Orders(id, next)[0], turn)
  {
    hide Attainable, Taken, Starts, EndsInPeril;
    assert cast.Orders(id, next)[0] == cast.Orders(id, cast.Bound())[0];
    TheFirstTurn(cast, hypot, s, id, turn);
  }

  /** There are such runs: a match is hosted on the map and given both orders. */
  method PlayOut(cast: Cast, hypot: (real, real) -> real, sqrt: real -> real, next: Target)
    returns (m: Match, id: string, ghost s: Snapshot, ghost turns: seq<Turn>)
    requires cast.Proper() && IsHypot(hypot) && IsSqrt(sqrt) && next.AtNode?
    ensures fresh(m) && Starts(cast.Board(), 0, s) && id in s.a.units
    ensures Runs(cast.World(hypot), s, cast.Orders(id, next), turns) && |turns| == 2
  {
    hide Timeline.Valid, Attainable, Graph.Sound, IsSqrt, IsHypot, HangsAt, Taken, Finished, Over, Setups.Sensible,
         Deployable, Match.Solvent;
    TheNormMeasures(hypot);
    BoardIsSensible(cast, hypot);
    var host := NewMatch(cast.Board(), hypot, 0);
    m, s := host, host.Snap();
    SomeoneIsThere(cast, s);
    id :| id in m.units;
    TheOpeningScene(cast, hypot, s, id);
    var hung, ended;
    ghost var e;
    hung, ended, turns, e := RunMatch(m, cast.Orders(id, next), sqrt);
    if |turns| == 1 {
      assert Taken(cast.World(hypot), MomentAfter(s, turns, 0), cast.Orders(id, next)[0], turns[0]);
      OneTurnIsNotAll(cast, hypot, s, id, next, turns[0], e);
    }
  }

  lemma SomeoneIsThere(cast: Cast, s: Snapshot)
    requires Starts(cast.Board(), 0, s)
    ensures exists id :: id in s.a.units
  {
    var ids :| Deployed(cast.Board().provinces, cast.Board().startingUnits, 0, ids, s.a.units);
    assert ids[0] in Elements(ids);
  }
}
