/** The players' commands, applied to a match. */
module Commands {
  import opened Clock
  import opened Geometry
  import opened StringOrder
  import opened Maps
  import opened Routes
  import opened Router
  import opened Snaps
  import opened Spatial
  import opened Diplomacy
  import opened Timelines
  import opened Workloads
  import opened Units
  import opened Economy
  import opened MatchState
  import opened Agendas
  import opened Maneuvers
  import opened Revenues
  import opened Chronicles
  import opened Histories
  import opened Matches

  /** The destination of a move, as the command names it. */
  datatype Destination =
    | ByNode(province: string, pos: Vec)
    | ByEdge(edgeFrom: string, edgeTo: string, t: real, pos: Vec)
    | ByProvince(from: string, to: string)
    | Garbled

  datatype Action =
    | MakeWar | OfferPeace | OfferAlliance | TakePeace | TakeAlliance
    | ShareTheMap | StopSharing | GrantWay | RevokeWay

  datatype Command =
    | Move(unitID: string, destination: Destination, queue: bool)
    | Recruit(from: string, what: string)
    | Construct(from: string, what: string)
    | Diplomatic(action: Action, target: string)
    | Unheard(kind: string)

  datatype Reply =
    | Accepted | MatchInactive | NoSlot | UnknownKind
    | UnknownUnit | Unauthorized | BadTarget | NoRoute | BlockedByTreaty
    | BadProvince | BadType | NeedsFactory | AlreadyBuilt | Occupied | NoFunds
    | MissingTarget | UnknownTarget | SelfTarget | Rejected(why: Outcome)

  // ---------- moving ----------

  /** The destination can be made sense of. */
  predicate Meaningful(graph: Graph, provinces: ProvinceTable, d: Destination) {
    !d.Garbled? && (d.ByProvince? ==> MayGo(graph, provinces, d.from, d.to))
  }

  /** t is what the destination means. */
  ghost predicate Means(graph: Graph, provinces: ProvinceTable, d: Destination, t: Target) {
    match d
    case Garbled => false
    case ByNode(province, pos) =>
      && t.AtNode? && t.pos == pos
      && if province != "" then t.province == province
         else exists s :: SnapsTo(graph, pos, s) && t.province == NodeOf(s)
    case ByEdge(edgeFrom, edgeTo, p, pos) => t == OnEdge(edgeFrom, edgeTo, p, pos)
    case ByProvince(from, to) => MayGo(graph, provinces, from, to) && t == AtNode(provinces[to].id, provinces[to].pos)
  }

  /** parseMoveTarget. */
  method ParseMoveTarget(m: Match, d: Destination) returns (ok: bool, target: Target)
    requires "" !in m.graph.coords
    ensures ok <==> Meaningful(m.graph, m.provinces, d)
    ensures ok ==> Means(m.graph, m.provinces, d, target)
  {
    ok, target := false, AtNode("", Vec(0.0, 0.0));
    match d {
      case Garbled =>
      case ByNode(province, pos) =>
        var prov := province;
        if prov == "" {
          var s := SnapTarget(m.graph, pos);
          prov := NodeOf(s);
        }
        ok, target := true, AtNode(prov, pos);
      case ByEdge(edgeFrom, edgeTo, t, pos) =>
        ok, target := true, OnEdge(edgeFrom, edgeTo, t, pos);
      case ByProvince(from, to) =>
        if to !in m.provinces {
          return;
        }
        if from != "" {
          if from !in m.provinces {
            return;
          }
          if !m.graph.HasEdge(m.provinces[from].id, m.provinces[to].id) && m.provinces[from].id != m.provinces[to].id {
            return;
          }
        }
        ok, target := true, AtNode(m.provinces[to].id, m.provinces[to].pos);
    }
  }

  /** nearestProvince: the province of a snapped point, or the first end of its edge. */
  function NodeOf(t: Target): string {
    if t.AtNode? then t.province else t.edgeFrom
  }

  /** A move by province names is to an adjacent province, or gives no origin. */
  predicate MayGo(graph: Graph, provinces: ProvinceTable, from: string, to: string) {
    && to in provinces
    && (from != "" ==>
          && from in provinces
          && (graph.HasEdge(provinces[from].id, provinces[to].id) || provinces[from].id == provinces[to].id))
  }

  /** u under a new order, all its plans dropped. */
  function Redirected(u: Unit): Unit {
    u.(waypoints := [], version := u.version + 1)
  }

  /** What becomes of u on a direct move: it sets out at once from where it is, on a shortest way to the
      target; if there is none, or diplomacy bars it, the reply says which, and nothing changes. */
  ghost predicate Directed(l: Ledger, graph: Graph, provinces: ProvinceTable, u: Unit, target: Target, now: int,
      reply: Reply, v: Unit) {
    match reply
    case Accepted => Departs(l, graph, provinces, Redirected(u), u.PositionAt(now), target, now, v)
    case NoRoute => v == u && Answered(graph, u, u.PositionAt(now), target, Route.NoRoute)
    case BlockedByTreaty => v == u && ShutOut(l, graph, provinces, u, u.PositionAt(now), target)
    case _ => false
  }

  /** A route has been found for u, and this is u on its way. */
  lemma DirectingIsContinuous(l: Ledger, graph: Graph, provinces: ProvinceTable, units: UnitTable, u: Unit,
      target: Target,
      legs: seq<Leg>, now: int)
    requires u.id in units && units[u.id] == u && u.speed > 0.0
    requires Routed(l, graph, provinces, u, u.PositionAt(now), target, legs)
    ensures legs != [] && Chained(legs)
    ensures var v := WithPath(Redirected(u), Schedule(graph.hypot, u.speed, legs, now), now);
            Directed(l, graph, provinces, u, target, now, Accepted, v) && Unmoved(units, units[u.id := v], now)
  {
    hide Unmoved, Schedule;
    var w := Redirected(u);
    RoutesCanBeLaid(l, graph, provinces, w, u.PositionAt(now), target, legs, now);
    var v := WithPath(w, Schedule(graph.hypot, u.speed, legs, now), now);
    DeparturesAreContinuous(l, graph, provinces, w, u.PositionAt(now), target, now, v);
    ReplacingKeepsPlaces(units, v, now);
  }

  lemma RefusingChangesNothing(l: Ledger, graph: Graph, provinces: ProvinceTable, units: UnitTable, u: Unit,
      target: Target, now: int, reply: Reply)
    requires u.id in units && units[u.id] == u
    requires match reply
             case NoRoute => Answered(graph, u, u.PositionAt(now), target, Route.NoRoute)
             case BlockedByTreaty => ShutOut(l, graph, provinces, u, u.PositionAt(now), target)
             case _ => false
    ensures units[u.id := u] == units && Unmoved(units, units, now)
    ensures Directed(l, graph, provinces, u, target, now, reply, u)
  {
    hide Answered, ShutOut;
  }

  /** A direct move: whatever comes of it, nobody is displaced. */
  method DirectMove(m: Match, u: Unit, target: Target) returns (reply: Reply, ghost v: Unit)
    requires m.Core() && m.busy == {} && m.graph.Sound()
    requires u.id in m.units && m.units[u.id] == u && u.speed > 0.0
    modifies m`units, m`busy, m`stranded, m.timeline, m.timeline.heap
    ensures m.Core() && m.busy == {} && m.units == old(m.units)[u.id := v]
    ensures m.stranded == if reply == Accepted then old(m.stranded) - {u.id} else old(m.stranded)
    ensures Directed(m.diplomacy.Value(), m.graph, m.provinces, u, target, m.gameNow, reply, v)
    ensures Unmoved(old(m.units), m.units, m.gameNow)
    ensures reply != Accepted ==> m.timeline.pending == old(m.timeline.pending)
    ensures Posted(m.units, old(m.timeline.pending), m.timeline.pending, 1, m.gameNow + MILLISECOND)
  {
    hide Timeline.Valid, Attainable, Posted, Schedule, Unmoved, Directed, Answered, ShutOut, Routed, Graph.Sound,
         Chained;
    PostedNothing(m.units, m.timeline.pending, 1, m.gameNow + MILLISECOND);
    var now := m.gameNow;
    var p := m.FindRoute(u, u.PositionAt(now), target);
    if p.Open? {
      DirectingIsContinuous(m.diplomacy.Value(), m.graph, m.provinces, m.units, u, target, p.legs, now);
      m.SetUnitPath(Redirected(u), p.legs, now);
      reply, v := Accepted, m.units[u.id];
    } else {
      reply, v := if p.Closed? then BlockedByTreaty else Reply.NoRoute, u;
      RefusingChangesNothing(m.diplomacy.Value(), m.graph, m.provinces, m.units, u, target, now, reply);
    }
  }

  /** u with one more waypoint to go to. */
  function WithWaypoint(u: Unit, target: Target): Unit {
    u.(waypoints := u.waypoints + [target])
  }

  function NewOrder(u: Unit): Unit {
    u.(version := u.version + 1)
  }

  /** What becomes of u on a queued move.  In flight, it just gets one more waypoint.  Otherwise it
      sets out for its first waypoint from where its record starts; if it cannot, that waypoint is
      lost and the move is refused. */
  ghost predicate QueuedUp(l: Ledger, graph: Graph, provinces: ProvinceTable, u: Unit, target: Target, now: int,
      reply: Reply, v: Unit) {
    if u.IsMoving(now) then reply == Accepted && v == WithWaypoint(u, target)
    else
      var w := NewOrder(WithWaypoint(u, target));
      if reply == Accepted then Departs(l, graph, provinces, NextWaypointTaken(w), u.originPos, w.waypoints[0], now, v)
      else
        && reply == BlockedByTreaty && v == NextWaypointTaken(w)
        && Refused(l, graph, provinces, w, u.originPos, w.waypoints[0])
  }

  /** Setting out from where its record says it started will not displace u: it is in flight, or at
      rest, or on a leg that leads nowhere. */
  predicate KeepsItsPlace(u: Unit, now: int) {
    u.IsMoving(now) || !u.HasLeg() || u.CurrentLeg().from == u.CurrentLeg().to
  }

  /** A queued move may be refused: u is not in flight, and from where its record starts its first
      waypoint cannot be reached, or a shortest way there is barred.  The router looks for no way around. */
  ghost predicate MayBeRefused(l: Ledger, graph: Graph, provinces: ProvinceTable, u: Unit, target: Target, now: int) {
    var w := NewOrder(WithWaypoint(u, target));
    !u.IsMoving(now) && Refused(l, graph, provinces, w, u.originPos, w.waypoints[0])
  }

  /** A queued move may be accepted: u is in flight, or a shortest way is permitted. */
  ghost predicate MayBeAccepted(l: Ledger, graph: Graph, provinces: ProvinceTable, u: Unit, target: Target, now: int) {
    var w := NewOrder(WithWaypoint(u, target));
    || u.IsMoving(now)
    || exists legs :: Routed(l, graph, provinces, NextWaypointTaken(w), u.originPos, w.waypoints[0], legs)
  }

  /** u has come to the end of a leg, and that has not been noticed yet. */
  predicate Landing(u: Unit, now: int) {
    u.HasLeg() && !u.IsMoving(now)
  }

  /** The stranded units after a queued move of u: refused to a unit that has come to the end of its leg,
      it strands the unit; accepted, it sets one afloat again. */
  ghost function StrandedAfter(stranded: set<string>, u: Unit, now: int, reply: Reply): set<string> {
    if u.IsMoving(now) then stranded
    else if reply != Accepted && u.HasLeg() then stranded + {u.id}
    else stranded - {u.id}
  }

  /** A queued move.  A unit whose leg has ended but whose arrival is still to be handled is put back
      to the start of that leg: unless the move is refused, nobody is displaced exactly when the unit was
      in flight, at rest, or on a leg between equal points.  And if it is refused, any arrival
      still to be handled will never be acted on. */
  method QueuedMove(m: Match, u: Unit, target: Target) returns (reply: Reply, ghost v: Unit)
    requires m.Core() && m.busy == {} && m.graph.Sound()
    requires u.id in m.units && m.units[u.id] == u && u.speed > 0.0
    modifies m`units, m`busy, m`stranded, m.timeline, m.timeline.heap
    ensures m.Core() && m.busy == {} && m.units == old(m.units)[u.id := v]
    ensures QueuedUp(m.diplomacy.Value(), m.graph, m.provinces, u, target, m.gameNow, reply, v)
    ensures !MayBeRefused(m.diplomacy.Value(), m.graph, m.provinces, u, target, m.gameNow) ==>
        reply == Accepted && (Unmoved(old(m.units), m.units, m.gameNow) <==> KeepsItsPlace(u, m.gameNow))
    ensures !MayBeAccepted(m.diplomacy.Value(), m.graph, m.provinces, u, target, m.gameNow) ==>
        reply != Accepted && Unmoved(old(m.units), m.units, m.gameNow)
    ensures Unmoved(old(m.units), m.units, m.gameNow) <==> KeepsItsPlace(u, m.gameNow) || reply != Accepted
    ensures m.stranded == StrandedAfter(old(m.stranded), u, m.gameNow, reply)
    ensures reply != Accepted ==> Unawaited(m.units, m.timeline.pending, u.id)
    ensures reply != Accepted ==> m.timeline.pending == old(m.timeline.pending)
    ensures Posted(m.units, old(m.timeline.pending), m.timeline.pending, 1, m.gameNow + MILLISECOND)
  {
    hide Timeline.Valid, Attainable, Posted, Schedule, Unmoved, Departs, Refused, Graph.Sound, Unawaited,
         MayBeRefused, MayBeAccepted;
    var now := m.gameNow;
    if u.IsMoving(now) {
      m.Replan(u.id, u.waypoints + [target]);
      reply, v := Accepted, WithWaypoint(u, target);
      PostedNothing(m.units, m.timeline.pending, 1, now + MILLISECOND);
      ReplacingKeepsPlaces(old(m.units), v, now);
    } else {
      reply, v := DepartFromRecord(m, u, target);
    }
    ReplyFollowsTheWays(m.diplomacy.Value(), m.graph, m.provinces, u, target, now, reply, v);
  }

  /** A queued move is refused only where it may be, and accepted only where it may be. */
  lemma ReplyFollowsTheWays(l: Ledger, graph: Graph, provinces: ProvinceTable, u: Unit, target: Target, now: int,
                            reply: Reply, v: Unit)
    requires QueuedUp(l, graph, provinces, u, target, now, reply, v)
    ensures reply != Accepted ==> MayBeRefused(l, graph, provinces, u, target, now)
    ensures reply == Accepted ==> MayBeAccepted(l, graph, provinces, u, target, now)
  {
    hide Refused, Routed, Schedule;
  }

  /** A queued move may displace a unit if and only if the unit has come to the end of a leg between
      different points, that has not been noticed yet, and a shortest way to its first waypoint is permitted. */
  lemma QueueingDisplacesIff(l: Ledger, graph: Graph, provinces: ProvinceTable, u: Unit, target: Target, now: int)
    requires u.WellFormed() && u.speed > 0.0
    ensures (exists reply, v ::
               QueuedUp(l, graph, provinces, u, target, now, reply, v) && v.PositionAt(now) != u.PositionAt(now))
       <==> !KeepsItsPlace(u, now) && MayBeAccepted(l, graph, provinces, u, target, now)
  {
    hide Refused, Routed, Schedule, Departs;
    var w := NewOrder(WithWaypoint(u, target));
    forall reply, v | QueuedUp(l, graph, provinces, u, target, now, reply, v)
      ensures reply == Accepted && !u.IsMoving(now) ==> v.PositionAt(now) == u.originPos
      ensures reply == Accepted ==> MayBeAccepted(l, graph, provinces, u, target, now)
      ensures reply != Accepted || u.IsMoving(now) ==> v.PositionAt(now) == u.PositionAt(now)
    {
      ReplyFollowsTheWays(l, graph, provinces, u, target, now, reply, v);
      if reply == Accepted && !u.IsMoving(now) {
        DeparturesAreContinuous(l, graph, provinces, NextWaypointTaken(w), u.originPos, w.waypoints[0], now, v);
      }
    }
    if !KeepsItsPlace(u, now) && MayBeAccepted(l, graph, provinces, u, target, now) {
      var legs :| Routed(l, graph, provinces, NextWaypointTaken(w), u.originPos, w.waypoints[0], legs);
      var v := OnItsWay(l, graph, provinces, NextWaypointTaken(w), u.originPos, w.waypoints[0], legs, now);
      assert QueuedUp(l, graph, provinces, u, target, now, Accepted, v);
    }
  }

  /** A queued move may strand a unit if and only if the unit has come to the end of a leg, that has not
      been noticed yet, and there is no way to its first waypoint, or a shortest one is barred. */
  lemma QueueingStrandsIff(l: Ledger, graph: Graph, provinces: ProvinceTable, u: Unit, target: Target, now: int)
    ensures (exists reply, v ::
               QueuedUp(l, graph, provinces, u, target, now, reply, v) && u.id in StrandedAfter({}, u, now, reply))
       <==> Landing(u, now) && MayBeRefused(l, graph, provinces, u, target, now)
  {
    hide Refused, Routed, Schedule, Departs;
    if Landing(u, now) && MayBeRefused(l, graph, provinces, u, target, now) {
      var v := NextWaypointTaken(NewOrder(WithWaypoint(u, target)));
      assert QueuedUp(l, graph, provinces, u, target, now, BlockedByTreaty, v);
    }
  }

  lemma OnItsWay(l: Ledger, graph: Graph, provinces: ProvinceTable, u: Unit, from: Vec, target: Target, legs: seq<Leg>,
      now: int)
    returns (v: Unit)
    requires u.speed > 0.0 && Routed(l, graph, provinces, u, from, target, legs)
    ensures Departs(l, graph, provinces, u, from, target, now, v)
  {
    RoutesCanBeLaid(l, graph, provinces, u, from, target, legs, now);
    v := WithPath(u, Schedule(graph.hypot, u.speed, legs, now), now);
  }

  /** A queued move of a unit that is not in flight. */
  method DepartFromRecord(m: Match, u: Unit, target: Target) returns (reply: Reply, ghost v: Unit)
    requires m.Core() && m.busy == {} && m.graph.Sound()
    requires u.id in m.units && m.units[u.id] == u && u.speed > 0.0 && !u.IsMoving(m.gameNow)
    modifies m`units, m`busy, m`stranded, m.timeline, m.timeline.heap
    ensures m.Core() && m.busy == {} && m.units == old(m.units)[u.id := v]
    ensures QueuedUp(m.diplomacy.Value(), m.graph, m.provinces, u, target, m.gameNow, reply, v)
    ensures Unmoved(old(m.units), m.units, m.gameNow) <==> KeepsItsPlace(u, m.gameNow) || reply != Accepted
    ensures m.stranded == StrandedAfter(old(m.stranded), u, m.gameNow, reply)
    ensures reply != Accepted ==> Unawaited(m.units, m.timeline.pending, u.id)
    ensures reply != Accepted ==> m.timeline.pending == old(m.timeline.pending)
    ensures Posted(m.units, old(m.timeline.pending), m.timeline.pending, 1, m.gameNow + MILLISECOND)
  {
    hide Timeline.Valid, Attainable, Posted, Unmoved, Departs, Graph.Sound, KeepsItsPlace, Stays, Unawaited, QueuedUp;
    UnitsMoveByTheBook(m.Present(), u.id);
    var now := m.gameNow;
    var w := NewOrder(WithWaypoint(u, target));
    var ok, next := m.StartNextWaypoint(w, now);
    v := next;
    if ok {
      reply := Accepted;
      DepartingQueuesUp(m.diplomacy.Value(), m.graph, m.provinces, old(m.units), u, target, now, v);
    } else {
      reply := BlockedByTreaty;
      StayingLosesAWaypoint(m.diplomacy.Value(), m.graph, m.provinces, old(m.units), u, target, now, next);
      NewerOrdersSupersede(m.Present(), next);
      LoseWaypoint(m, next);
      PostedNothing(m.units, m.timeline.pending, 1, now + MILLISECOND);
    }
  }

  /** A unit that is not in flight, and sets out for its first waypoint. */
  lemma DepartingQueuesUp(l: Ledger, graph: Graph, provinces: ProvinceTable, units: UnitTable, u: Unit, target: Target,
      now: int, v: Unit)
    requires u.id in units && units[u.id] == u && u.WellFormed() && !u.IsMoving(now)
    requires var w := NewOrder(WithWaypoint(u, target));
             Departs(l, graph, provinces, NextWaypointTaken(w), u.originPos, w.waypoints[0], now, v)
    ensures QueuedUp(l, graph, provinces, u, target, now, Accepted, v) && v.id == u.id
    ensures Unmoved(units, units[u.id := v], now) <==> KeepsItsPlace(u, now)
  {
    hide Departs, KeepsItsPlace, Unmoved;
    var w := NewOrder(WithWaypoint(u, target));
    DeparturesAreContinuous(l, graph, provinces, NextWaypointTaken(w), u.originPos, w.waypoints[0], now, v);
    DepartureKeepsPlacesIff(units, u, v, now);
  }

  /** The unit stays where it is; if it has come to the end of its leg, nobody will notice. */
  method LoseWaypoint(m: Match, next: Unit)
    requires m.Core() && MayReplace(m.units, m.busy, next) && next.WellFormed()
    requires next.HasLeg() ==> next.CurrentLeg().arrivesAt <= m.gameNow
    modifies m`units, m`busy, m`stranded
    ensures m.Core() && m.busy == {} && m.units == old(m.units)[next.id := next]
    ensures m.stranded == if next.HasLeg() then old(m.stranded) + {next.id} else old(m.stranded) - {next.id}
  {
    hide Timeline.Valid, Attainable, MayReplace;
    if next.HasLeg() {
      m.RunAground(next);
    } else {
      m.Rest(next);
    }
  }

  /** A unit that cannot set out for its first waypoint has lost it, but not its place. */
  lemma StayingLosesAWaypoint(l: Ledger, graph: Graph, provinces: ProvinceTable, units: UnitTable, u: Unit,
      target: Target, now: int, v: Unit)
    requires u.id in units && units[u.id] == u && u.WellFormed() && !u.IsMoving(now)
    requires Stays(l, graph, provinces, NewOrder(WithWaypoint(u, target)), now, v)
    ensures QueuedUp(l, graph, provinces, u, target, now, BlockedByTreaty, v)
    ensures v.id == u.id && v.owner == u.owner && v.speed == u.speed && v.version == u.version + 1
    ensures v.WellFormed() && (v.HasLeg() <==> u.HasLeg()) && Unmoved(units, units[u.id := v], now)
    ensures v.HasLeg() ==> v.CurrentLeg().arrivesAt <= now
  {
    hide Refused, Unmoved;
    ReplacingKeepsPlaces(units, v, now);
  }

  /** A unit that is not in flight and sets out from where its record starts stays in its place
      exactly when it is at rest or on a leg between equal points. */
  lemma DepartureKeepsPlacesIff(units: UnitTable, u: Unit, v: Unit, now: int)
    requires u.id in units && units[u.id] == u && u.WellFormed() && !u.IsMoving(now)
    requires v.id == u.id && v.PositionAt(now) == u.originPos
    ensures Unmoved(units, units[u.id := v], now) <==> KeepsItsPlace(u, now)
  {
    assert units[u.id := v][u.id] == v;
    if KeepsItsPlace(u, now) {
      ReplacingKeepsPlaces(units, v, now);
    }
  }

  /** What a move command does: to whom it is refused, and what becomes of the unit. */
  ghost predicate MoveServed(l: Ledger, graph: Graph, provinces: ProvinceTable, before: UnitTable, after: UnitTable,
                             issuer: string, unitID: string, d: Destination, queue: bool, now: int, reply: Reply)
  {
    if unitID !in before then reply == UnknownUnit && after == before
    else if before[unitID].owner != issuer then reply == Unauthorized && after == before
    else if !Meaningful(graph, provinces, d) then reply == BadTarget && after == before
    else
      && unitID in after && after == before[unitID := after[unitID]]
      && exists t :: Means(graph, provinces, d, t)
           && (if queue then QueuedUp(l, graph, provinces, before[unitID], t, now, reply, after[unitID])
               else Directed(l, graph, provinces, before[unitID], t, now, reply, after[unitID]))
  }

  /** The unit is sent to the target, at once or after its other waypoints. */
  method Send(m: Match, u: Unit, target: Target, queue: bool) returns (reply: Reply, ghost v: Unit)
    requires m.Core() && m.busy == {} && m.graph.Sound()
    requires u.id in m.units && m.units[u.id] == u && u.speed > 0.0
    modifies m`units, m`busy, m`stranded, m.timeline, m.timeline.heap
    ensures m.Core() && m.busy == {} && m.units == old(m.units)[u.id := v]
    ensures if queue then QueuedUp(m.diplomacy.Value(), m.graph, m.provinces, u, target, m.gameNow, reply, v)
            else Directed(m.diplomacy.Value(), m.graph, m.provinces, u, target, m.gameNow, reply, v)
    ensures Unmoved(old(m.units), m.units, m.gameNow) || (queue && !KeepsItsPlace(u, m.gameNow))
    ensures StrandsByQueueing(old(m.stranded), m.stranded, old(m.units), u.id, queue, m.gameNow, reply)
    ensures reply != Accepted ==> m.timeline.pending == old(m.timeline.pending)
    ensures if queue then reply in {Accepted, BlockedByTreaty}
            else reply != Accepted ==> v == u && m.stranded == old(m.stranded)
    ensures Posted(m.units, old(m.timeline.pending), m.timeline.pending, 1, m.gameNow + MILLISECOND)
  {
    hide Timeline.Valid, Attainable, Posted, Unmoved, Refused, Departs, KeepsItsPlace, Graph.Sound, Unawaited,
         MayBeRefused, MayBeAccepted;
    if queue {
      reply, v := QueuedMove(m, u, target);
    } else {
      reply, v := DirectMove(m, u, target);
    }
  }

  /** At most one unit is stranded by a move: the one named, by a queued move that is refused when the unit
      has come to the end of its leg. */
  ghost predicate StrandsByQueueing(before: set<string>, after: set<string>, units: UnitTable, unitID: string,
                                    queue: bool, now: int, reply: Reply)
  {
    && before - {unitID} <= after <= before + {unitID}
    && (unitID in after - before ==>
          queue && reply == BlockedByTreaty && unitID in units && Landing(units[unitID], now))
    && (queue && reply == BlockedByTreaty && unitID in units && Landing(units[unitID], now) ==> unitID in after)
  }

  /** What a move command makes of s.  A refused direct move changes nothing. */
  ghost predicate MoveHandled(graph: Graph, s: Snapshot, issuer: string, unitID: string, d: Destination, queue: bool,
                              reply: Reply, t: Snapshot)
  {
    && MoveServed(s.ledger, graph, s.a.provinces, s.a.units, t.a.units, issuer, unitID, d, queue, s.a.clock, reply)
    && StrandsByQueueing(s.a.stranded, t.a.stranded, s.a.units, unitID, queue, s.a.clock, reply)
    && Posted(t.a.units, s.a.pending, t.a.pending, 1, s.a.clock + MILLISECOND)
    && (reply != Accepted ==> t.a.pending == s.a.pending)
    && (reply != Accepted && !(queue && reply == BlockedByTreaty) ==> t == s)
    && t == s.(a := s.a.(units := t.a.units, stranded := t.a.stranded, pending := t.a.pending))
  }

  /** Why a move is refused before any way is looked for. */
  function MoveVerdict(graph: Graph, provinces: ProvinceTable, units: UnitTable, issuer: string, unitID: string,
      d: Destination): Reply
  {
    if unitID !in units then UnknownUnit
    else if units[unitID].owner != issuer then Unauthorized
    else if !Meaningful(graph, provinces, d) then BadTarget
    else Accepted
  }

  /** The checks of moveHandler. */
  method CheckMove(m: Match, issuer: string, unitID: string, d: Destination) returns (reply: Reply, target: Target)
    requires m.Core() && m.graph.Sound()
    ensures reply == MoveVerdict(m.graph, m.provinces, m.units, issuer, unitID, d)
    ensures reply == Accepted ==> Means(m.graph, m.provinces, d, target)
    ensures reply == Accepted ==> m.units[unitID].id == unitID && m.units[unitID].speed > 0.0
  {
    hide Timeline.Valid, Attainable, Graph.Sound, Means, Meaningful;
    target := AtNode("", Vec(0.0, 0.0));
    if unitID !in m.units {
      return UnknownUnit, target;
    }
    var u := m.units[unitID];
    if u.owner != issuer {
      return Unauthorized, target;
    }
    UnitsMoveByTheBook(m.Present(), unitID);
    if u.speed <= 0.0 {
      assert false;
    }
    NoNamelessProvince(m.graph);
    var ok;
    ok, target := ParseMoveTarget(m, d);
    reply := if ok then Accepted else BadTarget;
  }

  lemma RefusedMoveIsHandled(graph: Graph, s: Snapshot, issuer: string, unitID: string, d: Destination, queue: bool,
                             reply: Reply)
    requires reply == MoveVerdict(graph, s.a.provinces, s.a.units, issuer, unitID, d) != Accepted
    ensures MoveHandled(graph, s, issuer, unitID, d, queue, reply, s)
  {
    hide Meaningful, Means;
    PostedNothing(s.a.units, s.a.pending, 1, s.a.clock + MILLISECOND);
  }

  /** moveHandler. */
  method ApplyMove(m: Match, issuer: string, unitID: string, d: Destination, queue: bool) returns (reply: Reply)
    requires m.Core() && m.busy == {} && m.graph.Sound()
    modifies m`units, m`busy, m`stranded, m.timeline, m.timeline.heap
    ensures m.Core() && m.busy == {}
    ensures MoveHandled(m.graph, old(m.Snap()), issuer, unitID, d, queue, reply, m.Snap())
    ensures Unmoved(old(m.units), m.units, m.gameNow)
         || (queue && unitID in old(m.units) && !KeepsItsPlace(old(m.units)[unitID], m.gameNow))
  {
    hide Timeline.Valid, Attainable, Posted, Unmoved, QueuedUp, Directed, KeepsItsPlace, Graph.Sound, Means, Meaningful,
         StrandsByQueueing;
    NothingMoved(m.units, m.gameNow);
    var target;
    reply, target := CheckMove(m, issuer, unitID, d);
    if reply != Accepted {
      RefusedMoveIsHandled(m.graph, m.Snap(), issuer, unitID, d, queue, reply);
      return;
    }
    ghost var v;
    reply, v := Send(m, m.units[unitID], target, queue);
    assert m.Snap().a.units == m.units && old(m.Snap()).a.units == old(m.units);
  }

  lemma NoNamelessProvince(graph: Graph)
    requires graph.Sound()
    ensures "" !in graph.coords
  {
  }

  // ---------- recruiting and constructing ----------

  ghost predicate Hosts(buildings: seq<Building>, province: string, kind: string) {
    exists i :: 0 <= i < |buildings| && buildings[i].province == province && buildings[i].kind == kind
  }

  method HasBuilding(buildings: seq<Building>, province: string, kind: string) returns (found: bool)
    ensures found <==> Hosts(buildings, province, kind)
  {
    for i := 0 to |buildings|
      invariant forall k | 0 <= k < i :: buildings[k].province != province || buildings[k].kind != kind
    {
      if buildings[i].province == province && buildings[i].kind == kind {
        return true;
      }
    }
    found := false;
  }

  /** The slot can pay. */
  predicate Affords(banks: map<string, Resources>, slot: string, cost: Resources) {
    slot in banks && banks[slot].CanPay(cost)
  }

  /** The price has been paid, by the slot and nobody else. */
  ghost predicate Charged(before: map<string, Resources>, after: map<string, Resources>, slot: string, cost: Resources)
  {
    Affords(before, slot, cost) && after == before[slot := before[slot].Minus(cost)]
  }

  /** Why a recruit command is refused. */
  ghost function RecruitVerdict(provinces: ProvinceTable, buildings: seq<Building>, orders: OrderTable,
                                banks: map<string, Resources>, issuer: string, from: string, what: string): Reply
  {
    if from !in provinces then BadProvince
    else if provinces[from].owner != issuer then Unauthorized
    else if UnitKind(what).Unknown? then BadType
    else if UnitKind(what).value.needsBuilding != "" && !Hosts(buildings, from, UnitKind(what).value.needsBuilding)
    then NeedsFactory
    else if from in orders then Occupied
    else if !Affords(banks, issuer, UnitKind(what).value.cost) then NoFunds
    else Accepted
  }

  ghost function ConstructVerdict(provinces: ProvinceTable, buildings: seq<Building>, orders: OrderTable,
                                  banks: map<string, Resources>, issuer: string, from: string, what: string): Reply
  {
    if from !in provinces then BadProvince
    else if provinces[from].owner != issuer then Unauthorized
    else if BuildingKindOf(what).Unknown? then BadType
    else if Hosts(buildings, from, what) then AlreadyBuilt
    else if from in orders then Occupied
    else if !Affords(banks, issuer, BuildingKindOf(what).value.cost) then NoFunds
    else Accepted
  }

  /** What an order command does: accepted, it is paid in full by the issuer alone and filed under
      its province and an id never used before; refused, it changes nothing. */
  ghost predicate OrderServed(verdict: Reply, cost: Resources, buildTime: int, orders: OrderTable, orders': OrderTable,
                              banks: map<string, Resources>, banks': map<string, Resources>,
                              used: set<string>, issuer: string, from: string, what: string, now: int, reply: Reply)
  {
    && reply == verdict
    && if reply == Accepted then
         && from in orders' && orders' == orders[from := orders'[from]] && Charged(banks, banks', issuer, cost)
         && orders'[from].id !in used
         && orders'[from] == Order(orders'[from].id, issuer, from, what, now, now + buildTime)
       else orders' == orders && banks' == banks
  }

  function UnitPrice(what: string): Resources {
    if UnitKind(what).Known? then UnitKind(what).value.cost else NOTHING
  }

  function UnitTime(what: string): int {
    if UnitKind(what).Known? then UnitKind(what).value.buildTime else 0
  }

  function BuildingPrice(what: string): Resources {
    if BuildingKindOf(what).Known? then BuildingKindOf(what).value.cost else NOTHING
  }

  function BuildingTime(what: string): int {
    if BuildingKindOf(what).Known? then BuildingKindOf(what).value.buildTime else 0
  }

  lemma MayRecruit(provinces: ProvinceTable, buildings: seq<Building>, orders: OrderTable,
                   banks: map<string, Resources>, issuer: string, from: string, what: string)
    requires RecruitVerdict(provinces, buildings, orders, banks, issuer, from, what) == Accepted
    ensures from in provinces && provinces[from].owner == issuer && from !in orders && UnitKind(what).Known?
    ensures Affords(banks, issuer, UnitPrice(what)) && UnitPrice(what) == UnitKind(what).value.cost
    ensures UnitTime(what) == UnitKind(what).value.buildTime
  {
    hide Hosts, UnitKind;
  }

  lemma MayConstruct(provinces: ProvinceTable, buildings: seq<Building>, orders: OrderTable,
                     banks: map<string, Resources>, issuer: string, from: string, what: string)
    requires ConstructVerdict(provinces, buildings, orders, banks, issuer, from, what) == Accepted
    ensures from in provinces && provinces[from].owner == issuer && from !in orders && BuildingKindOf(what).Known?
    ensures Affords(banks, issuer, BuildingPrice(what)) && BuildingPrice(what) == BuildingKindOf(what).value.cost
    ensures BuildingTime(what) == BuildingKindOf(what).value.buildTime
  {
    hide Hosts, BuildingKindOf;
  }

  /** Whether an order for a unit may be placed. */
  method CheckRecruit(m: Match, issuer: string, from: string, what: string) returns (reply: Reply)
    ensures reply == RecruitVerdict(m.provinces, m.buildings, m.nextRecruit, m.resources, issuer, from, what)
  {
    hide UnitKind, Hosts;
    if from !in m.provinces {
      return BadProvince;
    }
    if m.provinces[from].owner != issuer {
      return Unauthorized;
    }
    var k := UnitKind(what);
    if k.Unknown? {
      return BadType;
    }
    var kind := k.value;
    if kind.needsBuilding != "" {
      var hosted := HasBuilding(m.buildings, from, kind.needsBuilding);
      if !hosted {
        return NeedsFactory;
      }
    }
    if from in m.nextRecruit {
      return Occupied;
    }
    if issuer !in m.resources || !m.resources[issuer].CanPay(kind.cost) {
      return NoFunds;
    }
    reply := Accepted;
  }

  /** recruitHandler.  An accepted order gets an id never used before. */
  method ApplyRecruit(m: Match, issuer: string, from: string, what: string) returns (reply: Reply)
    requires m.Core() && m.Solvent() && issuer != ""
    modifies m`resources, m`nextRecruit, m`ids, m`paid, m.timeline, m.timeline.heap
    ensures m.Core() && m.Solvent()
    ensures RecruitHandled(old(m.Snap()), issuer, from, what, reply, m.Snap())
  {
    hide Timeline.Valid, Attainable, Posted, UnitKind, RecruitVerdict, UnitPrice, UnitTime, Match.Solvent;
    PostedNothing(m.units, m.timeline.pending, 1, m.gameNow + MILLISECOND);
    reply := CheckRecruit(m, issuer, from, what);
    if reply == Accepted {
      MayRecruit(m.provinces, m.buildings, m.nextRecruit, m.resources, issuer, from, what);
      var order := m.PlaceRecruitOrder(issuer, from, what, UnitKind(what).value);
    }
  }

  /** Whether an order for a building may be placed. */
  method CheckConstruct(m: Match, issuer: string, from: string, what: string) returns (reply: Reply)
    ensures reply == ConstructVerdict(m.provinces, m.buildings, m.nextBuild, m.resources, issuer, from, what)
  {
    hide BuildingKindOf, Hosts;
    if from !in m.provinces {
      return BadProvince;
    }
    if m.provinces[from].owner != issuer {
      return Unauthorized;
    }
    var k := BuildingKindOf(what);
    if k.Unknown? {
      return BadType;
    }
    var hosted := HasBuilding(m.buildings, from, what);
    if hosted {
      return AlreadyBuilt;
    }
    if from in m.nextBuild {
      return Occupied;
    }
    if issuer !in m.resources || !m.resources[issuer].CanPay(k.value.cost) {
      return NoFunds;
    }
    reply := Accepted;
  }

  /** constructHandler, likewise. */
  method ApplyConstruct(m: Match, issuer: string, from: string, what: string) returns (reply: Reply)
    requires m.Core() && m.Solvent() && issuer != ""
    modifies m`resources, m`nextBuild, m`ids, m.timeline, m.timeline.heap
    ensures m.Core() && m.Solvent()
    ensures ConstructHandled(old(m.Snap()), issuer, from, what, reply, m.Snap())
  {
    hide Timeline.Valid, Attainable, Posted, BuildingKindOf, ConstructVerdict, BuildingPrice, BuildingTime,
         Match.Solvent;
    PostedNothing(m.units, m.timeline.pending, 1, m.gameNow + MILLISECOND);
    reply := CheckConstruct(m, issuer, from, what);
    if reply == Accepted {
      MayConstruct(m.provinces, m.buildings, m.nextBuild, m.resources, issuer, from, what);
      var order := m.PlaceBuildOrder(issuer, from, what, BuildingKindOf(what).value);
    }
  }

  // ---------- diplomacy ----------

  /** What a diplomatic command asks of the registry. */
  function OpOf(action: Action, issuer: string, target: string): Op {
    match action
    case MakeWar => Op.DeclareWar(issuer, target)
    case OfferPeace => Op.Propose(issuer, target, PeaceOffer)
    case OfferAlliance => Op.Propose(issuer, target, AllianceOffer)
    case TakePeace => Op.Accept(issuer, target, Pending.PeaceOffer)
    case TakeAlliance => Op.Accept(issuer, target, Pending.AllianceOffer)
    case ShareTheMap => Op.Grant(issuer, target, ShareMap)
    case StopSharing => Op.Revoke(issuer, target, ShareMap)
    case GrantWay => Op.Grant(issuer, target, RightOfWay)
    case RevokeWay => Op.Revoke(issuer, target, RightOfWay)
  }

  /** How a change of diplomacy is reported. */
  function ReportOf(action: Action): AppliedKind {
    match action
    case MakeWar => WarDeclared
    case OfferPeace => PeaceProposed
    case OfferAlliance => AllianceProposed
    case TakePeace => PeaceSigned
    case TakeAlliance => AllianceSigned
    case ShareTheMap => PactGranted
    case StopSharing => PactRevoked
    case GrantWay => PactGranted
    case RevokeWay => PactRevoked
  }

  /** The command comes from a slot and names another player. */
  predicate Addressed(players: set<string>, issuer: string, target: string) {
    target != "" && target in players && target != issuer
  }

  function DiplomaticVerdict(l: Ledger, players: set<string>, issuer: string, action: Action, target: string,
      now: int): Reply
  {
    if target == "" then MissingTarget
    else if target !in players then UnknownTarget
    else if target == issuer then SelfTarget
    else
      var why := l.Verdict(OpOf(action, issuer, target), now);
      if why == Done then Accepted else Rejected(why)
  }

  /** resolveTarget. */
  method ResolveTarget(m: Match, issuer: string, target: string) returns (reply: Reply)
    ensures reply == if target == "" then MissingTarget else if target !in m.players then UnknownTarget
                     else if target == issuer then SelfTarget else Accepted
    ensures reply == Accepted <==> Addressed(m.players, issuer, target)
  {
    if target == "" {
      return MissingTarget;
    }
    if target !in m.players {
      return UnknownTarget;
    }
    if target == issuer {
      return SelfTarget;
    }
    reply := Accepted;
  }

  /** The ledger after a diplomatic command. */
  function LedgerAfter(l: Ledger, players: set<string>, issuer: string, action: Action, target: string,
      now: int): Ledger
  {
    if Addressed(players, issuer, target) then l.After(OpOf(action, issuer, target), now) else l
  }

  /** What a diplomatic command makes of s: the ledger changes as the registry's specification says, and a
      change is reported. */
  ghost predicate DiplomacyHandled(s: Snapshot, issuer: string, action: Action, target: string, reply: Reply,
      t: Snapshot)
  {
    var now := s.a.clock;
    && reply == DiplomaticVerdict(s.ledger, s.a.players, issuer, action, target, now)
    && var l := LedgerAfter(s.ledger, s.a.players, issuer, action, target, now);
       if reply != Accepted then t == s.(ledger := l)
       else t == s.(ledger := l, a := s.a.(seqNo := s.a.seqNo + 1,
                      log := s.a.log + [AppliedEvent(ReportOf(action), now, s.a.seqNo + 1, "", "", issuer)]))
  }

  /** The registry is asked, if the command names another player. */
  method AskRegistry(m: Match, issuer: string, action: Action, target: string) returns (reply: Reply)
    modifies m.diplomacy
    ensures reply == DiplomaticVerdict(old(m.diplomacy.Value()), m.players, issuer, action, target, m.gameNow)
    ensures m.diplomacy.Value() == LedgerAfter(old(m.diplomacy.Value()), m.players, issuer, action, target, m.gameNow)
    ensures m.Snap() == old(m.Snap()).(ledger := m.diplomacy.Value())
  {
    hide Ledger.Verdict, Ledger.After, OpOf;
    reply := ResolveTarget(m, issuer, target);
    if reply == Accepted {
      var r := m.diplomacy.Perform(OpOf(action, issuer, target), m.gameNow);
      reply := if r == Done then Accepted else Rejected(r);
    }
  }

  /** The diplomacy handlers: a change is made exactly when the registry allows it, and is then
      reported. */
  method ApplyDiplomacy(m: Match, issuer: string, action: Action, target: string) returns (reply: Reply)
    requires m.Core()
    modifies m.diplomacy, m`log, m`seqNo
    ensures m.Core()
    ensures DiplomacyHandled(old(m.Snap()), issuer, action, target, reply, m.Snap())
  {
    hide Timeline.Valid, Attainable, DiplomaticVerdict, LedgerAfter;
    reply := AskRegistry(m, issuer, action, target);
    if reply == Accepted {
      m.Report(ReportOf(action), m.gameNow, "", "", issuer);
    }
  }

  // ---------- dispatch ----------

  /** What a command to recruit makes of s: accepted, the order is paid, filed and scheduled; refused, nothing
      changes. */
  ghost predicate RecruitHandled(s: Snapshot, issuer: string, from: string, what: string, reply: Reply, t: Snapshot) {
    && OrderServed(RecruitVerdict(s.a.provinces, s.buildings, s.a.recruits, s.banks, issuer, from, what),
         UnitPrice(what), UnitTime(what), s.a.recruits, t.a.recruits, s.banks, t.banks, s.a.ids,
         issuer, from, what, s.a.clock, reply)
    && Posted(t.a.units, s.a.pending, t.a.pending, 1, s.a.clock + MILLISECOND)
    && t == if reply != Accepted || from !in t.a.recruits then s else
         var id := t.a.recruits[from].id;
         s.(a := s.a.(recruits := t.a.recruits, pending := t.a.pending, ids := s.a.ids + {id}, paid := s.a.paid + {id}),
            banks := t.banks)
  }

  /** The same for a command to build. */
  ghost predicate ConstructHandled(s: Snapshot, issuer: string, from: string, what: string, reply: Reply, t: Snapshot)
  {
    && OrderServed(ConstructVerdict(s.a.provinces, s.buildings, s.a.builds, s.banks, issuer, from, what),
         BuildingPrice(what), BuildingTime(what), s.a.builds, t.a.builds, s.banks, t.banks, s.a.ids,
         issuer, from, what, s.a.clock, reply)
    && Posted(t.a.units, s.a.pending, t.a.pending, 1, s.a.clock + MILLISECOND)
    && t == if reply != Accepted || from !in t.a.builds then s else
         s.(a := s.a.(builds := t.a.builds, pending := t.a.pending, ids := s.a.ids + {t.a.builds[from].id}),
            banks := t.banks)
  }

  /** What a command of a slot makes of s, by kind. */
  ghost predicate Handled(graph: Graph, s: Snapshot, issuer: string, c: Command, reply: Reply, t: Snapshot) {
    match c
    case Move(unitID, d, queue) => MoveHandled(graph, s, issuer, unitID, d, queue, reply, t)
    case Recruit(from, what) => RecruitHandled(s, issuer, from, what, reply, t)
    case Construct(from, what) => ConstructHandled(s, issuer, from, what, reply, t)
    case Diplomatic(action, target) => DiplomacyHandled(s, issuer, action, target, reply, t)
    case Unheard(kind) => reply == UnknownKind && t == s
  }

  /** What a command makes of s: it acts only on an active match, and for a slot. */
  ghost predicate Dispatched(graph: Graph, s: Snapshot, issuer: string, c: Command, reply: Reply, t: Snapshot) {
    && Attainable(t.a) && t.a.busy == {}
    && if !s.a.active then reply == MatchInactive && t == s
       else if issuer == "" then reply == NoSlot && t == s
       else Handled(graph, s, issuer, c, reply, t)
  }

  /** A command of a slot reaches its handler. */
  method Handle(m: Match, issuer: string, c: Command) returns (reply: Reply)
    requires m.Core() && m.busy == {} && m.Solvent() && m.graph.Sound() && issuer != ""
    modifies m`units, m`busy, m`stranded, m`resources, m`nextRecruit, m`nextBuild, m`ids, m`paid, m`log, m`seqNo,
             m.diplomacy, m.timeline, m.timeline.heap
    ensures m.Core() && m.busy == {} && m.Solvent()
    ensures Handled(m.graph, old(m.Snap()), issuer, c, reply, m.Snap())
  {
    hide Timeline.Valid, Attainable, Graph.Sound, Match.Solvent, MoveHandled, RecruitHandled, ConstructHandled,
         DiplomacyHandled;
    match c {
      case Move(unitID, destination, queue) =>
        reply := ApplyMove(m, issuer, unitID, destination, queue);
      case Recruit(from, what) =>
        reply := ApplyRecruit(m, issuer, from, what);
      case Construct(from, what) =>
        reply := ApplyConstruct(m, issuer, from, what);
      case Diplomatic(action, target) =>
        reply := ApplyDiplomacy(m, issuer, action, target);
      case Unheard(kind) =>
        reply := UnknownKind;
    }
  }

  /** Dispatch: commands reach their handler only while the match is active and come from a slot. */
  method Dispatch(m: Match, issuer: string, c: Command) returns (reply: Reply)
    requires m.Core() && m.busy == {} && m.Solvent() && m.graph.Sound()
    modifies m`units, m`busy, m`stranded, m`resources, m`nextRecruit, m`nextBuild, m`ids, m`paid, m`log, m`seqNo,
             m.diplomacy, m.timeline, m.timeline.heap
    ensures m.Core() && m.busy == {} && m.Solvent()
    ensures Dispatched(m.graph, old(m.Snap()), issuer, c, reply, m.Snap())
  {
    hide Timeline.Valid, Attainable, Graph.Sound, Match.Solvent, Handled;
    if !m.active {
      return MatchInactive;
    }
    if issuer == "" {
      return NoSlot;
    }
    reply := Handle(m, issuer, c);
  }

  /** What a command does to the ledger of a match. */
  ghost function LedgerOnceServed(l: Ledger, players: set<string>, active: bool, issuer: string, c: Command,
      now: int): Ledger
  {
    if active && issuer != "" && c.Diplomatic? then LedgerAfter(l, players, issuer, c.action, c.target, now) else l
  }

  /** Reports are only ever added, and nobody is stranded but by the move of unitID. */
  ghost predicate OnlyAdds(s: Snapshot, t: Snapshot) {
    && t.a.clock == s.a.clock && t.a.players == s.a.players && s.a.log <= t.a.log && t.a.stranded <= s.a.stranded
  }

  lemma MovingKeeps(graph: Graph, s: Snapshot, issuer: string, unitID: string, d: Destination, queue: bool,
                    reply: Reply, t: Snapshot)
    requires MoveHandled(graph, s, issuer, unitID, d, queue, reply, t)
    ensures t.ledger == s.ledger && OnlyAdds(s, t.(a := t.a.(stranded := s.a.stranded)))
    ensures !queue ==> OnlyAdds(s, t)
  {
    hide MoveServed, Posted;
  }

  lemma OrderingKeeps(s: Snapshot, issuer: string, from: string, what: string, reply: Reply, t: Snapshot)
    requires RecruitHandled(s, issuer, from, what, reply, t) || ConstructHandled(s, issuer, from, what, reply, t)
    ensures t.ledger == s.ledger && OnlyAdds(s, t)
  {
    hide OrderServed, RecruitVerdict, ConstructVerdict, Posted;
  }

  lemma NegotiatingKeeps(s: Snapshot, issuer: string, action: Action, target: string, reply: Reply, t: Snapshot)
    requires DiplomacyHandled(s, issuer, action, target, reply, t)
    ensures t.ledger == LedgerAfter(s.ledger, s.a.players, issuer, action, target, s.a.clock) && OnlyAdds(s, t)
  {
    hide DiplomaticVerdict, LedgerAfter, ReportOf;
  }

  /** Reports are only ever added, only a queued move can strand a unit, and the ledger changes only by the
      registry's rules. */
  lemma DispatchingKeeps(graph: Graph, s: Snapshot, issuer: string, c: Command, reply: Reply, t: Snapshot)
    requires Dispatched(graph, s, issuer, c, reply, t)
    ensures t.ledger == LedgerOnceServed(s.ledger, s.a.players, s.a.active, issuer, c, s.a.clock)
    ensures t.a.clock == s.a.clock && t.a.players == s.a.players && s.a.log <= t.a.log
    ensures !(c.Move? && c.queue) ==> t.a.stranded <= s.a.stranded
  {
    hide MoveHandled, RecruitHandled, ConstructHandled, DiplomacyHandled, LedgerAfter, Attainable;
    if s.a.active && issuer != "" {
      match c {
        case Move(unitID, d, queue) => MovingKeeps(graph, s, issuer, unitID, d, queue, reply, t);
        case Recruit(from, what) => OrderingKeeps(s, issuer, from, what, reply, t);
        case Construct(from, what) => OrderingKeeps(s, issuer, from, what, reply, t);
        case Diplomatic(action, target) => NegotiatingKeeps(s, issuer, action, target, reply, t);
        case Unheard(kind) =>
      }
    }
  }
}
