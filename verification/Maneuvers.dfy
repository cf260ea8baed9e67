/** What the movement code of a match decides, and what it keeps, on values. */
module Maneuvers {
  import opened Clock
  import opened Geometry
  import opened Maps
  import opened Router
  import opened Routes
  import opened Diplomacy
  import opened Coalitions
  import opened Timelines
  import opened Units
  import opened MatchState
  import opened Agendas
  import opened Pooling
  import opened Perils
  import opened Colours

  const COLLISION_RADIUS: real := 30.0

  /** `other` is on the same edge as the leg, in either direction. */
  predicate SharesLegEdge(leg: PathLeg, other: Unit) {
    if !other.HasLeg() then
      || (other.origin == leg.fromProv && other.dest == leg.toProv)
      || (other.origin == leg.toProv && other.dest == leg.fromProv)
    else
      var ol := other.CurrentLeg();
      || (ol.fromProv == leg.fromProv && ol.toProv == leg.toProv)
      || (ol.fromProv == leg.toProv && ol.toProv == leg.fromProv)
  }

  /** `other` is a live enemy of u, on the edge u just travelled and within reach. */
  predicate Threatens(l: Ledger, hypot: (real, real) -> real, u: Unit, leg: PathLeg, other: Unit, at: int) {
    && other.id != u.id && other.hp > 0.0 && l.Stance(u.owner, other.owner) == War && SharesLegEdge(leg, other)
    && Distance(hypot, u.originPos, other.PositionAt(at)) <= COLLISION_RADIUS
  }

  /** What is found when a unit asks for a route: a way, none, or one that diplomacy bars. */
  datatype Passage = Open(legs: seq<Leg>) | NoWay | Closed

  /** Some leg of the route may not be entered. */
  ghost predicate Barred(l: Ledger, provinces: ProvinceTable, mover: string, legs: seq<Leg>) {
    exists i :: 0 <= i < |legs| && LegBlocked(l, provinces, mover, legs[i].toProv)
  }

  /** r is an answer of the router to u, asked for a way from where it is to the target. */
  ghost predicate Answered(graph: Graph, u: Unit, from: Vec, target: Target, r: Route) {
    exists p :: StartsAt(graph, from, u.origin, u.dest, p) && Answers(graph, from, p, target, r)
  }

  /** The legs are a shortest way for u from where it is to the target, and diplomacy lets u through. */
  ghost predicate Routed(l: Ledger, graph: Graph, provinces: ProvinceTable, u: Unit, from: Vec, target: Target,
      legs: seq<Leg>)
  {
    Answered(graph, u, from, target, Legs(legs)) && !Barred(l, provinces, u.owner, legs)
  }

  /** A shortest way for u to the target is barred. */
  ghost predicate ShutOut(l: Ledger, graph: Graph, provinces: ProvinceTable, u: Unit, from: Vec, target: Target) {
    exists legs :: Answered(graph, u, from, target, Legs(legs)) && Barred(l, provinces, u.owner, legs)
  }

  /** There is no way for u to the target, or a shortest one is barred. */
  ghost predicate Refused(l: Ledger, graph: Graph, provinces: ProvinceTable, u: Unit, from: Vec, target: Target) {
    Answered(graph, u, from, target, NoRoute) || ShutOut(l, graph, provinces, u, from, target)
  }

  /** v is u on its way: it sets out now, from where it is, on a shortest way to the target, which is permitted. */
  ghost predicate Departs(l: Ledger, graph: Graph, provinces: ProvinceTable, u: Unit, from: Vec, target: Target,
      now: int,
      v: Unit) {
    && u.speed > 0.0
    && exists legs ::
         && Routed(l, graph, provinces, u, from, target, legs)
         && v == WithPath(u, Schedule(graph.hypot, u.speed, legs, now), now)
  }

  /** u with its first waypoint used up. */
  function NextWaypointTaken(u: Unit): Unit
    requires u.waypoints != []
  {
    u.(waypoints := u.waypoints[1..])
  }

  /** v is u after it failed to set out for its next waypoint: it had none, or was moving, or
      there is no way to the waypoint, which is then used up. */
  ghost predicate Stays(l: Ledger, graph: Graph, provinces: ProvinceTable, u: Unit, now: int, v: Unit) {
    if u.waypoints == [] || u.IsMoving(now) then v == u
    else v == NextWaypointTaken(u) && Refused(l, graph, provinces, u, u.originPos, u.waypoints[0])
  }

  lemma RoutesCanBeLaid(l: Ledger, graph: Graph, provinces: ProvinceTable, u: Unit, from: Vec, target: Target,
      legs: seq<Leg>, now: int)
    requires u.speed > 0.0 && Routed(l, graph, provinces, u, from, target, legs)
    ensures legs != [] && Chained(legs)
    ensures Departs(l, graph, provinces, u, from, target, now,
        WithPath(u, Schedule(graph.hypot, u.speed, legs, now), now))
  {
  }

  /** A unit that departs is, at that moment, where it departs from, and will end at the target. */
  lemma DeparturesAreContinuous(l: Ledger, graph: Graph, provinces: ProvinceTable, u: Unit, from: Vec, target: Target,
      now: int, v: Unit)
    requires Departs(l, graph, provinces, u, from, target, now, v)
    ensures v.WellFormed() && v.HasLeg() && v.PositionAt(now) == from && v.startedAt == now
    ensures v.path[|v.path| - 1].to == target.pos && v.path[|v.path| - 1].toProv == target.GoalProvince()
    ensures v.path[0].from == from && now + MILLISECOND <= v.path[0].arrivesAt
    ensures v == u.(path := v.path, pathIndex := 0, origin := v.origin, dest := v.dest, originPos := v.originPos,
        destPos := v.destPos,
                    startedAt := v.startedAt, arrivesAt := v.arrivesAt)
  {
    var legs :|
      Routed(l, graph, provinces, u, from, target, legs) && v == WithPath(u, Schedule(graph.hypot, u.speed, legs, now),
          now);
    ScheduleIsSound(graph.hypot, u.speed, legs, now);
    NewPathIsContinuous(u, Schedule(graph.hypot, u.speed, legs, now), now);
  }

  /** after continues before with reports of time `at`. */
  ghost predicate Told(before: seq<AppliedEvent>, after: seq<AppliedEvent>, at: int) {
    before <= after && forall i {:trigger after[i]} | |before| <= i < |after| :: after[i].at == at
  }

  lemma ToldTwice(a: seq<AppliedEvent>, b: seq<AppliedEvent>, c: seq<AppliedEvent>, at: int)
    requires Told(a, b, at) && Told(b, c, at)
    ensures Told(a, c, at)
  {
    assert forall i | 0 <= i < |b| :: b[i] == c[i];
  }

  lemma ToldOne(a: seq<AppliedEvent>, r: AppliedEvent)
    ensures Told(a, a + [r], r.at)
  {
  }

  lemma ToldQuietly(a: seq<AppliedEvent>, out: seq<AppliedEvent>, at: int)
    requires Quiet(out, at)
    ensures Told(a, a + out, at)
  {
  }

  lemma ToldNothing(a: seq<AppliedEvent>, at: int)
    ensures Told(a, a, at)
  {
  }

  /** Every unit left is where it was: nobody is teleported at time `at`. */
  ghost predicate Unmoved(before: UnitTable, after: UnitTable, at: int) {
    && after.Keys <= before.Keys
    && forall o {:trigger after[o]} | o in after :: after[o].PositionAt(at) == before[o].PositionAt(at)
  }

  lemma UnmovedTwice(a: UnitTable, b: UnitTable, c: UnitTable, at: int)
    requires Unmoved(a, b, at) && Unmoved(b, c, at)
    ensures Unmoved(a, c, at)
  {
    forall o | o in c
      ensures c[o].PositionAt(at) == a[o].PositionAt(at)
    {
      assert o in b;
    }
  }

  lemma NothingMoved(units: UnitTable, at: int)
    ensures Unmoved(units, units, at)
  {
  }

  lemma ReplacingKeepsPlaces(units: UnitTable, u: Unit, at: int)
    requires u.id in units && u.PositionAt(at) == units[u.id].PositionAt(at)
    ensures Unmoved(units, units[u.id := u], at)
  {
  }

  lemma TrimmingKeepsPlaces(before: UnitTable, after: UnitTable, at: int)
    requires Trimmed(before, after)
    ensures Unmoved(before, after, at)
  {
  }

  /** Combat leaves a proper roster. */
  lemma CombatKeepsRoster(l: Ledger, all: set<string>, u0: UnitTable, p0: ProvinceTable, units: UnitTable,
                          provinces: ProvinceTable, p: string, at: int, w: string)
    requires p in p0 && RosterOk(u0, p0, all) && Resolved(l, all, u0, p0, units, provinces, p, at, w)
    ensures RosterOk(units, provinces, all) && Trimmed(u0, units)
  {
    hide HpTotal, Side, CoalId, Coals, ChampionOf;
    var s := Garrison(u0, p, at);
    if s != {} {
      BattleTrims(Coals(l, all), u0, s, units, w);
      forall id | id in units
        ensures units[id].id == id && units[id].owner in all
      {
        if id != w {
          assert units[id] == u0[id];
        }
      }
    }
  }

  /** u stops where its leg ended and drops all its plans. */
  function Stopped(u: Unit): Unit {
    Halted(u).(waypoints := [])
  }

  /** u sets out on the leg after the one it completes at time `at`. */
  function NextLeg(u: Unit, at: int): Unit
    requires u.HasLeg()
  {
    BeginLeg(EndLeg(u, at).(pathIndex := u.pathIndex + 1), at)
  }

  /** u, whose arrival is being handled, reaches the end of its current leg just now. */
  ghost predicate LegEnds(units: UnitTable, busy: set<string>, u: Unit, at: int) {
    && u.id in units && units[u.id] == u && busy == {u.id}
    && u.HasLeg() && at == u.CurrentLeg().arrivesAt
  }

  /** The leg ends in hostile territory, or with an enemy in reach. */
  ghost predicate MeetsEnemy(l: Ledger, hypot: (real, real) -> real, units: UnitTable, provinces: ProvinceTable,
      u: Unit, at: int)
    requires u.HasLeg()
  {
    || HostileEnd(l, provinces, u.owner, u.CurrentLeg().toProv)
    || exists id :: id in units && Threatens(l, hypot, EndLeg(u, at), u.CurrentLeg(), units[id], at)
  }

  /** There was combat over p, if it is a province. */
  ghost predicate Contested(l: Ledger, all: set<string>, u0: UnitTable, p0: ProvinceTable, units: UnitTable,
                         provinces: ProvinceTable, p: string, at: int)
  {
    if p in p0 then exists w :: Resolved(l, all, u0, p0, units, provinces, p, at, w)
    else units == u0 && provinces == p0
  }

  /** u, at the end of its path in p, became v: it set out for its next waypoint, or stayed where it
      was and fought. */
  ghost predicate Concludes(l: Ledger, graph: Graph, all: set<string>, u0: UnitTable, p0: ProvinceTable,
      units: UnitTable,
                            provinces: ProvinceTable, u: Unit, p: string, at: int, v: Unit)
    requires u.HasLeg()
  {
    var h := Halted(EndLeg(u, at));
    || (h.waypoints != [] && Departs(l, graph, p0, NextWaypointTaken(h), h.originPos, h.waypoints[0], at, v)
        && units == u0[u.id := v] && provinces == p0)
    || (Stays(l, graph, p0, h, at, v) && Contested(l, all, u0[u.id := v], p0, units, provinces, p, at))
  }

  lemma DepartingConcludes(l: Ledger, graph: Graph, all: set<string>, u0: UnitTable, p0: ProvinceTable, u: Unit,
      p: string, at: int, v: Unit)
    requires u.HasLeg() && u.waypoints != []
    requires Departs(l, graph, p0, NextWaypointTaken(Halted(EndLeg(u, at))), EndLeg(u, at).originPos, u.waypoints[0],
        at, v)
    ensures Concludes(l, graph, all, u0, p0, u0[u.id := v], p0, u, p, at, v)
  {
  }

  lemma StayingConcludes(l: Ledger, graph: Graph, all: set<string>, u0: UnitTable, p0: ProvinceTable, units: UnitTable,
                         provinces: ProvinceTable, u: Unit, p: string, at: int, v: Unit)
    requires u.HasLeg() && Stays(l, graph, p0, Halted(EndLeg(u, at)), at, v)
    requires Contested(l, all, u0[u.id := v], p0, units, provinces, p, at)
    ensures Concludes(l, graph, all, u0, p0, units, provinces, u, p, at, v)
  {
  }

  /** What the end of u's current leg does to units and provinces. */
  ghost predicate LegDone(l: Ledger, graph: Graph, all: set<string>, u0: UnitTable, p0: ProvinceTable, units: UnitTable,
                          provinces: ProvinceTable, u: Unit, at: int)
  {
    && u.HasLeg()
    && var p := u.CurrentLeg().toProv;
       if MeetsEnemy(l, graph.hypot, u0, p0, u, at) then
         Contested(l, all, u0[u.id := Stopped(EndLeg(u, at))], p0, units, provinces, p, at)
       else if u.pathIndex + 1 < |u.path| then units == u0[u.id := NextLeg(u, at)] && provinces == p0
       else exists v :: Concludes(l, graph, all, u0, p0, units, provinces, u, p, at, v)
  }

  /** u's current leg ends in a province that it fights over, because it meets an enemy there or has
      nowhere else to go, and once it has stopped the garrison there is perilous. */
  ghost predicate EndsInPeril(l: Ledger, graph: Graph, all: set<string>, units: UnitTable, provinces: ProvinceTable,
                              u: Unit, at: int)
  {
    && u.HasLeg() && u.CurrentLeg().toProv in provinces
    && (MeetsEnemy(l, graph.hypot, units, provinces, u, at)
        || (u.pathIndex + 1 == |u.path| && exists v :: Stays(l, graph, provinces, Halted(EndLeg(u, at)), at, v)))
    && PerilAt(l, all, units[u.id := Stopped(EndLeg(u, at))], u.CurrentLeg().toProv, at)
  }

  /** Report n says that u has reached the end of its current leg. */
  ghost predicate Reports(log: seq<AppliedEvent>, n: nat, u: Unit, at: int) {
    && u.HasLeg() && n < |log|
    && log[n].kind == Arrived && log[n].at == at && log[n].unitID == u.id && log[n].province == u.CurrentLeg().toProv
  }

  lemma TheFirstReport(a: seq<AppliedEvent>, b: seq<AppliedEvent>, c: seq<AppliedEvent>, at: int)
    requires Told(b, c, at) && |b| == |a| + 1
    ensures |a| < |c| && c[|a|] == b[|a|]
  {
  }

  lemma StoppingIsContinuous(units: UnitTable, u: Unit, at: int)
    requires u.id in units && units[u.id] == u && u.WellFormed() && u.HasLeg() && at == u.CurrentLeg().arrivesAt
    ensures Stopped(EndLeg(u, at)).WellFormed() && !Stopped(EndLeg(u, at)).HasLeg()
    ensures Unmoved(units, units[u.id := Stopped(EndLeg(u, at))], at)
  {
    HaltIsContinuous(u, at);
    assert Stopped(EndLeg(u, at)).PositionAt(at) == u.PositionAt(at);
    ReplacingKeepsPlaces(units, Stopped(EndLeg(u, at)), at);
  }

  lemma ProceedingIsContinuous(units: UnitTable, u: Unit, at: int)
    requires u.id in units && units[u.id] == u && u.WellFormed() && u.HasLeg() && at == u.CurrentLeg().arrivesAt
    requires u.pathIndex + 1 < |u.path|
    ensures NextLeg(u, at).WellFormed() && NextLeg(u, at).HasLeg() && at + MILLISECOND <= NextLeg(u, at).arrivesAt
    ensures Unmoved(units, units[u.id := NextLeg(u, at)], at)
  {
    LegSwitchIsContinuous(u, at);
    ReplacingKeepsPlaces(units, NextLeg(u, at), at);
    assert SucceedsAt(u.path, u.pathIndex + 1);
  }

  lemma SettingOutIsContinuous(l: Ledger, graph: Graph, provinces: ProvinceTable, units: UnitTable, u: Unit, at: int,
      v: Unit)
    requires u.id in units && units[u.id] == u && u.WellFormed() && u.HasLeg() && at == u.CurrentLeg().arrivesAt
    requires u.waypoints != []
    requires Departs(l, graph, provinces, Halted(EndLeg(u, at)).(waypoints := u.waypoints[1..]),
        EndLeg(u, at).originPos,
        u.waypoints[0], at, v)
    ensures Unmoved(units, units[u.id := v], at)
  {
    DeparturesAreContinuous(l, graph, provinces, Halted(EndLeg(u, at)).(waypoints := u.waypoints[1..]),
        EndLeg(u, at).originPos,
                            u.waypoints[0], at, v);
    ReplacingKeepsPlaces(units, v, at);
  }

  lemma StayingIsContinuous(l: Ledger, graph: Graph, provinces: ProvinceTable, units: UnitTable, u: Unit, at: int,
      v: Unit)
    requires u.id in units && units[u.id] == u && u.WellFormed() && u.HasLeg() && at == u.CurrentLeg().arrivesAt
    requires Stays(l, graph, provinces, Halted(EndLeg(u, at)), at, v)
    ensures v == Halted(EndLeg(u, at)).(waypoints := v.waypoints) && v.WellFormed() && !v.HasLeg()
    ensures Unmoved(units, units[u.id := v], at)
  {
    HaltIsContinuous(u, at);
    assert v.PositionAt(at) == u.PositionAt(at);
    ReplacingKeepsPlaces(units, v, at);
  }

  /** Whoever survives takes the province: it is nobody's, or belongs to another coalition. */
  ghost predicate Takes(l: Ledger, all: set<string>, before: ProvinceTable, p: string, winner: string)
    requires p in before
  {
    before[p].owner == "" || CoalId(l, all, before[p].owner) != CoalId(l, all, winner)
  }

  /** The owner after a battle that `winner` survived. */
  ghost function Captured(l: Ledger, all: set<string>, before: ProvinceTable, p: string, winner: string): ProvinceTable
    requires p in before
  {
    if Takes(l, all, before, p, winner) then before[p := before[p].(owner := winner)] else before
  }

  /** One capture is reported, last: that of p by the slot. */
  ghost predicate Proclaims(out: seq<AppliedEvent>, p: string, slot: string) {
    && Count(out, ProvinceCaptured) == 1
    && out[|out| - 1].kind == ProvinceCaptured && out[|out| - 1].province == p && out[|out| - 1].slot == slot
  }

  lemma ProclaimedLast(out: seq<AppliedEvent>, capture: seq<AppliedEvent>, p: string, slot: string)
    requires Count(out, ProvinceCaptured) == 0 && |capture| <= 1
    requires capture != [] ==>
        capture[0].kind == ProvinceCaptured && capture[0].province == p && capture[0].slot == slot
    ensures if capture == [] then Count(out + capture, ProvinceCaptured) == 0 else Proclaims(out + capture, p, slot)
  {
    if capture == [] {
      assert out + capture == out;
    } else {
      assert capture == [capture[0]];
      CountOneMore(out, capture[0], ProvinceCaptured);
    }
  }

  /** After combat in p, a capture is reported exactly if the survivor's slot takes the province. */
  ghost predicate Heralds(l: Ledger, all: set<string>, u0: UnitTable, p0: ProvinceTable, units: UnitTable, p: string,
                          at: int, w: string, out: seq<AppliedEvent>)
    requires p in p0
  {
    if Garrison(u0, p, at) != {} && w in units && Takes(l, all, p0, p, units[w].owner)
    then Proclaims(out, p, units[w].owner)
    else Count(out, ProvinceCaptured) == 0
  }

  /** A province after combat: at most one live unit is left at rest in it, the survivor of the
      battle, and the province is its owner's unless an ally of its owner held it already. */
  ghost predicate Resolved(l: Ledger, all: set<string>, u0: UnitTable, p0: ProvinceTable,
                           units: UnitTable, provinces: ProvinceTable, p: string, at: int, w: string)
    requires p in p0
  {
    var s := Garrison(u0, p, at);
    if s == {} then units == u0 && provinces == p0
    else Battle(Coals(l, all), u0, s, units, w) && provinces == Captured(l, all, p0, p, units[w].owner)
  }

  /** The hit points that a slot has at rest in a province. */
  ghost function SlotTotal(units: UnitTable, s: set<string>, slot: string): real
    requires s <= units.Keys
  {
    HpTotal(units, set id | id in s && units[id].owner == slot)
  }

  /** Without alliances each coalition is one slot, so its side is the units of that slot. */
  lemma SidesAreSlots(l: Ledger, all: set<string>, units: UnitTable, s: set<string>, slot: string)
    requires NoAlliances(l, all) && s <= units.Keys && slot in all
    requires forall id {:trigger units[id]} | id in s :: units[id].owner in all
    ensures Side(Coals(l, all), units, s, slot) == set id | id in s && units[id].owner == slot
  {
    hide CoalId;
    forall id | id in s
      ensures id in Side(Coals(l, all), units, s, slot) <==> units[id].owner == slot
    {
      WithoutAlliancesEachIsAlone(l, all, units[id].owner);
    }
  }

  /** A province after combat, when nobody is allied: one live unit is left at rest in it, with all
      the hit points of its slot, which no other slot's total exceeded, and the province is that
      slot's. */
  lemma TheStrongestSlotHolds(l: Ledger, all: set<string>, u0: UnitTable, p0: ProvinceTable, units: UnitTable,
                              provinces: ProvinceTable, p: string, at: int, w: string)
    requires p in p0 && RosterOk(u0, p0, all) && NoAlliances(l, all)
    requires Resolved(l, all, u0, p0, units, provinces, p, at, w) && Garrison(u0, p, at) != {}
    ensures var s := Garrison(u0, p, at);
            && w in s && w in units && provinces == p0[p := p0[p].(owner := units[w].owner)]
            && units.Keys == u0.Keys - s + {w} && Garrison(units, p, at) == {w}
            && units[w].owner == u0[w].owner && units[w].hp == SlotTotal(u0, s, units[w].owner)
            && forall slot | slot in all && (exists id :: id in s && u0[id].owner == slot) ::
                 SlotTotal(u0, s, slot) <= units[w].hp
  {
    hide HpTotal, CoalId, CanLend;
    var s, coal := Garrison(u0, p, at), Coals(l, all);
    var m :| Lends(coal, u0, s, coal[u0[w].owner], m, units[w]);
    WithoutAlliancesEachIsAlone(l, all, u0[w].owner);
    WithoutAlliancesEachIsAlone(l, all, u0[m].owner);
    SidesAreSlots(l, all, u0, s, u0[w].owner);
    forall slot, id | slot in all && id in s && u0[id].owner == slot
      ensures SlotTotal(u0, s, slot) <= units[w].hp
    {
      WithoutAlliancesEachIsAlone(l, all, slot);
      SidesAreSlots(l, all, u0, s, slot);
    }
    if p0[p].owner != "" {
      WithoutAlliancesEachIsAlone(l, all, p0[p].owner);
    }
    assert p0[p := p0[p]] == p0;
    HpPositive(u0, Side(coal, u0, s, coal[u0[w].owner]));
  }

  /** Whoever captures the province owns a unit of the surviving side that no stronger unit of the side
      keeps from showing. */
  lemma TheCaptorMayLend(l: Ledger, all: set<string>, u0: UnitTable, p0: ProvinceTable, units: UnitTable,
                         provinces: ProvinceTable, p: string, at: int, w: string) returns (m: string)
    requires p in p0 && RosterOk(u0, p0, all) && Resolved(l, all, u0, p0, units, provinces, p, at, w)
    requires Garrison(u0, p, at) != {}
    ensures w in u0 && w in units && u0[w].owner in all
    ensures MayLend(u0, Side(Coals(l, all), u0, Garrison(u0, p, at), CoalId(l, all, u0[w].owner)), m)
    ensures m in u0 && units[w].owner == u0[m].owner && provinces == Captured(l, all, p0, p, u0[m].owner)
  {
    hide HpTotal, CoalId, CanLend, MayLend;
    var s, coal := Garrison(u0, p, at), Coals(l, all);
    m :| Lends(coal, u0, s, coal[u0[w].owner], m, units[w]);
    LendersAreNotOutweighed(u0, Side(coal, u0, s, coal[u0[w].owner]), m);
  }

  /** And when a slot is sure to show among the surviving side, it is that slot. */
  lemma TheSureSlotCaptures(l: Ledger, all: set<string>, u0: UnitTable, p0: ProvinceTable, units: UnitTable,
                            provinces: ProvinceTable, p: string, at: int, w: string, slot: string)
    requires p in p0 && RosterOk(u0, p0, all) && Resolved(l, all, u0, p0, units, provinces, p, at, w)
    requires Garrison(u0, p, at) != {} && w in u0
    requires SureToShow(u0, Side(Coals(l, all), u0, Garrison(u0, p, at), CoalId(l, all, u0[w].owner)), slot)
    ensures provinces == Captured(l, all, p0, p, slot)
  {
    hide HpTotal, CoalId, CanLend, Resolved, RosterOk, Captured;
    var m := TheCaptorMayLend(l, all, u0, p0, units, provinces, p, at, w);
    var side := Side(Coals(l, all), u0, Garrison(u0, p, at), CoalId(l, all, u0[w].owner));
    var y :| Outweighs(u0, side, y) && forall x | x in side && u0[y].hp <= u0[x].hp :: u0[x].owner == slot;
    assert !(u0[m].hp < u0[y].hp);
  }
}
