/** What battles, captures and the end of a match come to, told without the rules that decide them. */
module Aftermaths {
  import opened Clock
  import opened Geometry
  import opened StringOrder
  import opened Maps
  import opened Routes
  import opened Diplomacy
  import opened Coalitions
  import opened Timelines
  import opened Units
  import opened Fights
  import opened Economy
  import opened MatchState
  import opened Agendas
  import opened Pooling
  import opened Colours
  import opened Perils
  import opened Maneuvers
  import opened Revenues
  import opened Chronicles
  import opened Histories

  // ---------- who is touched ----------

  /** A live unit at rest in the province. */
  predicate StandsIn(u: Unit, p: string, at: int) {
    u.hp > 0.0 && u.origin == p && u.dest == p && !u.IsMoving(at)
  }

  /** Combat touches nobody but the live units at rest in the province, and of these it leaves one; if there are
      none, nothing changes. */
  lemma OneIsLeft(l: Ledger, all: set<string>, u0: UnitTable, p0: ProvinceTable, units: UnitTable,
                  provinces: ProvinceTable, p: string, at: int, w: string)
    requires p in p0 && RosterOk(u0, p0, all) && Resolved(l, all, u0, p0, units, provinces, p, at, w)
    ensures units.Keys <= u0.Keys
    ensures forall id | id in u0 && !StandsIn(u0[id], p, at) :: id in units && units[id] == u0[id]
    ensures (forall id | id in u0 :: !StandsIn(u0[id], p, at)) ==> units == u0 && provinces == p0
    ensures (exists id :: id in u0 && StandsIn(u0[id], p, at)) ==>
        && w in u0 && w in units && StandsIn(u0[w], p, at) && StandsIn(units[w], p, at)
        && forall id | id in units && id in u0 && StandsIn(u0[id], p, at) :: id == w
  {
    hide HpTotal, CanLend, CoalId;
    var s := Garrison(u0, p, at);
    assert forall id :: id in s <==> id in u0 && StandsIn(u0[id], p, at);
    if s != {} {
      var coal := Coals(l, all);
      var k := coal[u0[w].owner];
      HpPositive(u0, Side(coal, u0, s, k));
    }
  }

  /** Whoever survives owns the province afterwards, unless it belongs to a slot that a chain of alliances joins
      to the survivor's: then nothing changes.  No other province does, nor anything else about this one. */
  lemma AlliesLeaveItAlone(l: Ledger, all: set<string>, u0: UnitTable, p0: ProvinceTable, units: UnitTable,
                           provinces: ProvinceTable, p: string, at: int, w: string)
    requires p in p0 && RosterOk(u0, p0, all) && Resolved(l, all, u0, p0, units, provinces, p, at, w)
    requires exists id :: id in u0 && StandsIn(u0[id], p, at)
    ensures w in units && units[w].owner in all
    ensures Takes(l, all, p0, p, units[w].owner) <==>
            p0[p].owner == "" || !Linked(l, all, p0[p].owner, units[w].owner)
    ensures p0[p].owner != "" && Linked(l, all, p0[p].owner, units[w].owner) ==> provinces == p0
    ensures p0[p].owner == "" || !Linked(l, all, p0[p].owner, units[w].owner) ==>
        provinces.Keys == p0.Keys && provinces[p] == p0[p].(owner := units[w].owner)
        && forall q | q in p0 && q != p :: provinces[q] == p0[q]
  {
    hide HpTotal, CoalId, CanLend, MayLend;
    var id :| id in u0 && StandsIn(u0[id], p, at);
    assert id in Garrison(u0, p, at);
    var m := TheCaptorMayLend(l, all, u0, p0, units, provinces, p, at, w);
    if p0[p].owner != "" {
      SameIdIffLinked(l, all, p0[p].owner, units[w].owner);
    }
  }

  // ---------- blows ----------

  /** Infantry beats armor, armor beats cavalry, and cavalry beats infantry. */
  predicate Beats(kind: string, other: string) {
    (kind, other) in {("infantry", "armor"), ("armor", "cavalry"), ("cavalry", "infantry")}
  }

  /** A blow takes 38 hit points from a victim that the attacker beats, 22 from one that beats it, and otherwise
      30; whoever has no more than that is struck off under its owner's name, and nobody else is touched. */
  lemma BlowsFollowTheTable(f: Arena, w: string, a: string)
    requires w in f && a in f
    ensures var k, v := f[a].kind, f[w].kind;
            var dealt := if Beats(k, v) then 38.0 else if Beats(v, k) then 22.0 else 30.0;
            var g := Strike(f, w, a);
            && (dealt < f[w].hp ==> g == f[w := Champion(f[w].owner, f[w].kind, f[w].hp - dealt)])
            && (f[w].hp <= dealt ==> g.Keys == f.Keys - {f[w].owner} && forall k | k in g && k != w :: g[k] == f[k])
  {
  }

  // ---------- the end of a leg ----------

  /** Two places are the ends of the edge that the unit is on, or was on last. */
  predicate OnTheEdge(o: Unit, x: string, y: string) {
    if o.HasLeg() then {o.CurrentLeg().fromProv, o.CurrentLeg().toProv} == {x, y} else {o.origin, o.dest} == {x, y}
  }

  /** What a unit meets at the end of its leg: the province of a slot that it is at war with, or a live unit of
      such a slot on the same edge, in whatever direction, at most 30 away. */
  ghost predicate FoeAhead(l: Ledger, hypot: (real, real) -> real, units: UnitTable, provinces: ProvinceTable, u: Unit,
                           at: int)
    requires u.HasLeg()
  {
    var leg := u.CurrentLeg();
    || (leg.toProv in provinces && provinces[leg.toProv].owner != "" && provinces[leg.toProv].owner != u.owner
        && l.Stance(u.owner, provinces[leg.toProv].owner) == War)
    || exists id :: id in units && units[id].id != u.id && units[id].hp > 0.0
         && l.Stance(u.owner, units[id].owner) == War && OnTheEdge(units[id], leg.fromProv, leg.toProv)
         && Distance(hypot, leg.to, units[id].PositionAt(at)) <= 30.0
  }

  lemma EdgesAgree(leg: PathLeg, o: Unit)
    ensures SharesLegEdge(leg, o) <==> OnTheEdge(o, leg.fromProv, leg.toProv)
  {
    var x, y := if o.HasLeg() then o.CurrentLeg().fromProv else o.origin, if o.HasLeg() then o.CurrentLeg().toProv
        else o.dest;
    SamePair(x, y, leg.fromProv, leg.toProv);
  }

  lemma SamePair(a: string, b: string, x: string, y: string)
    ensures {a, b} == {x, y} <==> (a == x && b == y) || (a == y && b == x)
  {
    if {a, b} == {x, y} {
      assert a in {x, y} && b in {x, y} && x in {a, b} && y in {a, b};
    }
  }

  lemma FoesAreMet(l: Ledger, hypot: (real, real) -> real, units: UnitTable, provinces: ProvinceTable, u: Unit, at: int)
    requires u.HasLeg()
    ensures MeetsEnemy(l, hypot, units, provinces, u, at) <==> FoeAhead(l, hypot, units, provinces, u, at)
  {
    forall id | id in units
      ensures Threatens(l, hypot, EndLeg(u, at), u.CurrentLeg(), units[id], at) <==>
              units[id].id != u.id && units[id].hp > 0.0 && l.Stance(u.owner, units[id].owner) == War
              && OnTheEdge(units[id], u.CurrentLeg().fromProv, u.CurrentLeg().toProv)
              && Distance(hypot, u.CurrentLeg().to, units[id].PositionAt(at)) <= 30.0
    {
      EdgesAgree(u.CurrentLeg(), units[id]);
    }
  }

  /** A unit's own side is no foe, nor are slots that it is at peace with or allied to. */
  lemma FriendsAreNoFoes(l: Ledger, hypot: (real, real) -> real, units: UnitTable, provinces: ProvinceTable, u: Unit,
                         at: int, friends: set<string>)
    requires u.HasLeg() && forall o | o in friends :: o == u.owner || l.StanceOf(SortedPair(u.owner, o)) != War
    requires forall id | id in units :: units[id].owner in friends
    requires forall p | p in provinces :: provinces[p].owner in friends + {""}
    ensures !MeetsEnemy(l, hypot, units, provinces, u, at)
  {
  }

  /** A unit that stops stands where its leg ended, without plans. */
  lemma StoppedUnitsStand(u: Unit, at: int, t: int)
    requires u.HasLeg() && u.hp > 0.0
    ensures var v := Stopped(EndLeg(u, at));
            && StandsIn(v, u.CurrentLeg().toProv, at) && v.PositionAt(t) == u.CurrentLeg().to
            && v.path == [] && v.waypoints == [] && v.id == u.id
  {
  }

  /** A live unit that meets a foe at the end of its leg fights for the province that it has come to: afterwards
      one unit stands there, and if that is the unit it has no plans left. */
  lemma FoesAreFought(l: Ledger, graph: Graph, all: set<string>, u0: UnitTable, p0: ProvinceTable, units: UnitTable,
                      provinces: ProvinceTable, u: Unit, at: int)
    requires LegDone(l, graph, all, u0, p0, units, provinces, u, at) && RosterOk(u0, p0, all)
    requires u.id in u0 && u0[u.id] == u && u.hp > 0.0 && u.CurrentLeg().toProv in p0
    requires FoeAhead(l, graph.hypot, u0, p0, u, at)
    ensures var p := u.CurrentLeg().toProv;
            exists w :: w in units && StandsIn(units[w], p, at)
              && (forall id | id in units && id in u0 && id != u.id && StandsIn(u0[id], p, at) :: id == w)
              && (u.id in units ==> u.id == w && units[w].path == [] && units[w].waypoints == [])
  {
    hide FoeAhead, Resolved, MeetsEnemy, Unit.IsMoving;
    FoesAreMet(l, graph.hypot, u0, p0, u, at);
    StoppedUnitsStand(u, at, at);
    var p, v := u.CurrentLeg().toProv, Stopped(EndLeg(u, at));
    var w :| Resolved(l, all, u0[u.id := v], p0, units, provinces, p, at, w);
    OneIsLeft(l, all, u0[u.id := v], p0, units, provinces, p, at, w);
    assert u0[u.id := v][u.id] == v;
    TheWinnerKeepsItsPlans(l, all, u0[u.id := v], p0, units, provinces, p, at, w);
    forall id | id in units && id in u0 && id != u.id && StandsIn(u0[id], p, at)
      ensures id == w
    {
      assert u0[u.id := v][id] == u0[id];
    }
  }

  /** A live unit that meets no foe, is at the end of its path and has no waypoints left fights for the province
      that it has come to. */
  lemma ArrivedUnitsFight(l: Ledger, graph: Graph, all: set<string>, u0: UnitTable, p0: ProvinceTable, units: UnitTable,
                          provinces: ProvinceTable, u: Unit, at: int)
    requires LegDone(l, graph, all, u0, p0, units, provinces, u, at) && RosterOk(u0, p0, all)
    requires u.id in u0 && u0[u.id] == u && u.hp > 0.0 && u.CurrentLeg().toProv in p0
    requires u.pathIndex + 1 == |u.path| && u.waypoints == []
    ensures var p := u.CurrentLeg().toProv;
            exists w :: w in units && StandsIn(units[w], p, at)
              && (forall id | id in units && id in u0 && id != u.id && StandsIn(u0[id], p, at) :: id == w)
              && (u.id in units ==> u.id == w && units[w].path == [])
  {
    hide Resolved, MeetsEnemy, Unit.IsMoving, Departs;
    StoppedUnitsStand(u, at, at);
    var p, v := u.CurrentLeg().toProv, Stopped(EndLeg(u, at));
    assert Halted(EndLeg(u, at)) == v;
    var w :| Resolved(l, all, u0[u.id := v], p0, units, provinces, p, at, w);
    OneIsLeft(l, all, u0[u.id := v], p0, units, provinces, p, at, w);
    assert u0[u.id := v][u.id] == v;
    TheWinnerKeepsItsPlans(l, all, u0[u.id := v], p0, units, provinces, p, at, w);
    forall id | id in units && id in u0 && id != u.id && StandsIn(u0[id], p, at)
      ensures id == w
    {
      assert u0[u.id := v][id] == u0[id];
    }
  }

  /** A unit that meets no foe and is at the end of its path, but has no permitted way on to its next waypoint,
      gives that waypoint up, and keeps the others if it survives the fight. */
  lemma StuckUnitsLoseAWaypoint(l: Ledger, graph: Graph, all: set<string>, u0: UnitTable, p0: ProvinceTable,
                                units: UnitTable, provinces: ProvinceTable, u: Unit, at: int)
    requires LegDone(l, graph, all, u0, p0, units, provinces, u, at) && RosterOk(u0, p0, all)
    requires u.id in u0 && u0[u.id] == u && u.pathIndex + 1 == |u.path| && u.waypoints != []
    requires !FoeAhead(l, graph.hypot, u0, p0, u, at)
    requires var v := NextWaypointTaken(Halted(EndLeg(u, at)));
             forall legs :: !Routed(l, graph, p0, v, u.CurrentLeg().to, u.waypoints[0], legs)
    ensures u.id in units ==> units[u.id].waypoints == u.waypoints[1..] && units[u.id].path == []
  {
    hide FoeAhead, MeetsEnemy, Resolved, Refused, Routed, Schedule;
    FoesAreMet(l, graph.hypot, u0, p0, u, at);
    var v :| Concludes(l, graph, all, u0, p0, units, provinces, u, u.CurrentLeg().toProv, at, v);
    var p := u.CurrentLeg().toProv;
    if p in p0 && u.id in units {
      var w :| Resolved(l, all, u0[u.id := v], p0, units, provinces, p, at, w);
      CombatKeepsRoster(l, all, u0[u.id := v], p0, units, provinces, p, at, w);
    }
  }

  lemma TheWinnerKeepsItsPlans(l: Ledger, all: set<string>, u0: UnitTable, p0: ProvinceTable, units: UnitTable,
                               provinces: ProvinceTable, p: string, at: int, w: string)
    requires p in p0 && RosterOk(u0, p0, all) && Resolved(l, all, u0, p0, units, provinces, p, at, w) && w in units
    ensures w in u0 && units[w].path == u0[w].path && units[w].waypoints == u0[w].waypoints
  {
    CombatKeepsRoster(l, all, u0, p0, units, provinces, p, at, w);
  }

  /** A unit that meets no foe and has legs left is on the next one, and nothing else has changed. */
  lemma UnopposedUnitsGoOn(l: Ledger, graph: Graph, all: set<string>, u0: UnitTable, p0: ProvinceTable,
                           units: UnitTable, provinces: ProvinceTable, u: Unit, at: int)
    requires LegDone(l, graph, all, u0, p0, units, provinces, u, at) && u.WellFormed()
    requires u.id in u0 && u0[u.id] == u && at == u.CurrentLeg().arrivesAt
    requires !FoeAhead(l, graph.hypot, u0, p0, u, at) && u.pathIndex + 1 < |u.path|
    ensures provinces == p0 && u.id in units && units == u0[u.id := units[u.id]]
    ensures var v := units[u.id];
            && v.HasLeg() && v.CurrentLeg() == u.path[u.pathIndex + 1] && v.PositionAt(at) == u.CurrentLeg().to
            && v.path == u.path && v.waypoints == u.waypoints && v.version == u.version
  {
    hide FoeAhead, MeetsEnemy;
    FoesAreMet(l, graph.hypot, u0, p0, u, at);
    LegSwitchIsContinuous(u, at);
  }

  /** A unit that meets no foe, is at the end of its path and can go on to its next waypoint does so, without a
      fight: it will end there, and its other waypoints come after. */
  lemma PassingUnitsDoNotFight(l: Ledger, graph: Graph, all: set<string>, u0: UnitTable, p0: ProvinceTable,
                               units: UnitTable, provinces: ProvinceTable, u: Unit, at: int)
    requires LegDone(l, graph, all, u0, p0, units, provinces, u, at)
    requires u.id in u0 && u0[u.id] == u && u.pathIndex + 1 == |u.path| && u.waypoints != []
    requires !FoeAhead(l, graph.hypot, u0, p0, u, at)
    requires !Refused(l, graph, p0, Halted(EndLeg(u, at)), u.CurrentLeg().to, u.waypoints[0])
    ensures provinces == p0 && u.id in units && units == u0[u.id := units[u.id]]
    ensures var v := units[u.id];
            && v.HasLeg() && v.path[0].from == u.CurrentLeg().to && v.path[|v.path| - 1].to == u.waypoints[0].pos
            && v.waypoints == u.waypoints[1..]
  {
    hide FoeAhead, MeetsEnemy, Departs, Contested, Refused;
    FoesAreMet(l, graph.hypot, u0, p0, u, at);
    var v :| Concludes(l, graph, all, u0, p0, units, provinces, u, u.CurrentLeg().toProv, at, v);
    DeparturesAreContinuous(l, graph, p0, NextWaypointTaken(Halted(EndLeg(u, at))), u.CurrentLeg().to, u.waypoints[0],
        at, v);
  }

  // ---------- the end of a match ----------

  /** Somebody owns a capital, and chains of alliances join all who do. */
  ghost predicate Conquered(l: Ledger, all: set<string>, provinces: ProvinceTable) {
    && (exists p :: p in provinces && provinces[p].capital && provinces[p].owner != "")
    && forall p, q | p in provinces && q in provinces && provinces[p].capital && provinces[q].capital
                     && provinces[p].owner != "" && provinces[q].owner != "" ::
         Linked(l, all, provinces[p].owner, provinces[q].owner)
  }

  lemma ConqueredIsDecided(l: Ledger, all: set<string>, provinces: ProvinceTable)
    requires forall p | p in provinces :: provinces[p].owner == "" || provinces[p].owner in all
    ensures Decided(l, all, CapitalOwners(provinces)) <==> Conquered(l, all, provinces)
  {
    hide CoalId, Linked;
    var owners := CapitalOwners(provinces);
    forall a, b | a in owners && b in owners
      ensures CoalId(l, all, a) == CoalId(l, all, b) <==> Linked(l, all, a, b)
    {
      SameIdIffLinked(l, all, a, b);
    }
    forall p | p in provinces && provinces[p].capital && provinces[p].owner != ""
      ensures provinces[p].owner in owners
    {
    }
    if Conquered(l, all, provinces) {
      forall a, b | a in owners && b in owners
        ensures Linked(l, all, a, b)
      {
        var p :| p in provinces && provinces[p].capital && provinces[p].owner == a;
        var q :| q in provinces && provinces[q].capital && provinces[q].owner == b;
      }
    }
  }

  /** A match that is still on ends at a check exactly if the map is conquered; all owners of capitals, and nobody
      else, have then won, under the least name of their coalition. */
  lemma MatchesEndIffConquered(l: Ledger, all: set<string>, provinces: ProvinceTable, before: Standing, after: Standing,
                               pending: set<Event>, log: seq<AppliedEvent>, at: int)
    requires Judged(l, all, provinces, before, after, pending, log, at)
    requires forall p | p in provinces :: provinces[p].owner == "" || provinces[p].owner in all
    ensures after.active <==> before.active && !Conquered(l, all, provinces)
    ensures before.active && !after.active ==>
        && Sorted(after.winnerCoal)
        && (forall s :: s in after.winnerCoal <==>
              exists p :: p in provinces && provinces[p].capital && provinces[p].owner == s != "")
        && (forall s, x | s in after.winnerCoal && x in all && Linked(l, all, s, x) ::
              x == after.winnerSlot || Less(after.winnerSlot, x))
        && (forall s | s in after.winnerCoal :: Linked(l, all, s, after.winnerSlot))
        && log != [] && log[|log| - 1].kind == MatchEnded && log[|log| - 1].at == at
        && log[|log| - 1].slot == after.winnerSlot
        && exists e :: e in pending && e.kind == MatchCleanup && e.at == at + 5 * MINUTE
  {
    hide CoalId, Linked, Conquered;
    var owners := CapitalOwners(provinces);
    ConqueredIsDecided(l, all, provinces);
    forall s | s in owners
      ensures Linked(l, all, s, CoalId(l, all, s))
      ensures forall x | x in all && Linked(l, all, s, x) :: x == CoalId(l, all, s) || Less(CoalId(l, all, s), x)
    {
      CoalIdIsLeast(l, all, s);
    }
    assert forall s :: s in after.winnerCoal <==> s in Elements(after.winnerCoal);
  }
}
