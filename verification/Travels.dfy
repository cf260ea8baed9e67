/** What becomes of moves: who may order them, where they lead, and in what order. */
module Travels {
  import opened Clock
  import opened Geometry
  import opened Maps
  import opened Routes
  import opened Diplomacy
  import opened Timelines
  import opened Units
  import opened Motions
  import opened MatchState
  import opened Maneuvers
  import opened Chronicles
  import opened Histories
  import opened Commands
  import opened Turns
  import opened Economy
  import opened Goals
  import opened Snaps

  /** The province that a move names is next to the one that it gives as its origin, or the same. */
  ghost predicate Adjacent(graph: Graph, a: string, b: string) {
    a == b || exists e :: e in graph.edges && {e.from, e.to} == {a, b}
  }

  lemma EdgesJoin(graph: Graph, a: string, b: string)
    ensures graph.HasEdge(a, b) || a == b <==> Adjacent(graph, a, b)
  {
    forall k | 0 <= k < |graph.edges|
      ensures a != b ==> (Joins(graph.edges[k], a, b) <==> {graph.edges[k].from, graph.edges[k].to} == {a, b})
    {
      EndsAgree(graph.edges[k].from, graph.edges[k].to, a, b);
    }
    if graph.HasEdge(a, b) && a != b {
      var k :| 0 <= k < |graph.edges| && Joins(graph.edges[k], a, b);
      assert graph.edges[k] in graph.edges;
    }
  }

  lemma EndsAgree(a: string, b: string, x: string, y: string)
    ensures {a, b} == {x, y} <==> (a == x && b == y) || (a == y && b == x)
  {
    if {a, b} == {x, y} {
      assert a in {x, y} && b in {x, y} && x in {a, b} && y in {a, b};
    }
  }

  /** Who may move what where, and what is said to whoever may not. */
  lemma MovingIsAllowedIff(graph: Graph, s: Snapshot, issuer: string, unitID: string, d: Destination, queue: bool,
                           reply: Reply, t: Snapshot)
    requires MoveHandled(graph, s, issuer, unitID, d, queue, reply, t)
    requires forall p | p in s.a.provinces :: s.a.provinces[p].id == p
    ensures var known := unitID in s.a.units;
            var mine := known && s.a.units[unitID].owner == issuer;
            var clear := d.ByNode? || d.ByEdge? || (d.ByProvince? && d.to in s.a.provinces
                && (d.from == "" || (d.from in s.a.provinces && Adjacent(graph, d.from, d.to))));
            && (reply == UnknownUnit <==> !known)
            && (reply == Unauthorized <==> known && !mine)
            && (reply == BadTarget <==> mine && !clear)
            && (reply in {Accepted, Reply.NoRoute, BlockedByTreaty} <==> mine && clear)
    ensures t.a.units != s.a.units ==> unitID in s.a.units && s.a.units[unitID].owner == issuer
    ensures forall id | id in s.a.units && id != unitID :: id in t.a.units && t.a.units[id] == s.a.units[id]
  {
    hide Posted, StrandsByQueueing, Means, Departs, Answered, ShutOut, Refused;
    if d.ByProvince? {
      EdgesJoin(graph, d.from, d.to);
    }
  }

  /** The point that the command names. */
  ghost predicate Names(provinces: ProvinceTable, d: Destination, pos: Vec) {
    match d
    case Garbled => false
    case ByNode(_, at) => pos == at
    case ByEdge(_, _, _, at) => pos == at
    case ByProvince(_, to) => to in provinces && pos == provinces[to].pos
  }

  /** An accepted direct move is obeyed at once: from where the unit is then, which, if it is in flight, is as far
      along its leg as the time passed is along the leg's time, to exactly the point named; whatever it was to do
      before is forgotten. */
  lemma DirectMovesAreObeyed(graph: Graph, s: Snapshot, issuer: string, unitID: string, d: Destination, t: Snapshot)
    requires MoveHandled(graph, s, issuer, unitID, d, false, Accepted, t)
    ensures unitID in s.a.units && unitID in t.a.units
    ensures var u, v, now := s.a.units[unitID], t.a.units[unitID], s.a.clock;
            && v.HasLeg() && v.pathIndex == 0 && v.waypoints == [] && v.version == u.version + 1
            && v.PositionAt(now) == u.PositionAt(now) == v.path[0].from && v.startedAt == now
            && Names(s.a.provinces, d, v.path[|v.path| - 1].to)
            && (u.HasLeg() && u.startedAt <= now <= u.CurrentLeg().arrivesAt ==>
                  Divides(u.CurrentLeg().from, u.CurrentLeg().to, v.path[0].from, now - u.startedAt,
                    u.CurrentLeg().arrivesAt - u.startedAt))
  {
    hide Posted, StrandsByQueueing, Departs, Answered, ShutOut, Divides, Unit.PositionAt;
    var u, v, now := s.a.units[unitID], t.a.units[unitID], s.a.clock;
    var target :| Means(graph, s.a.provinces, d, target)
      && Directed(s.ledger, graph, s.a.provinces, u, target, now, Accepted, v);
    DeparturesAreContinuous(s.ledger, graph, s.a.provinces, Redirected(u), u.PositionAt(now), target, now, v);
    PlacesIgnorePlans(u, now);
    if u.HasLeg() {
      MotionIsUniform(u, now);
    }
  }

  /** In a run of a match that is at the moment of the input: where the unit is when the order comes, and with the
      clock of that moment, before anything that is due is handled. */
  lemma OrdersAreObeyedAtOnce(graph: Graph, s: Snapshot, input: Input, turn: Turn)
    requires Taken(graph, s, input, turn) && input.Ask? && input.command.Move? && !input.command.queue
    requires turn.reply == Accepted
    ensures var id, first := input.command.unitID, turn.course.first;
            && id in s.a.units && id in first.a.units && s.a.units[id].owner == input.issuer
            && first.a.units[id].startedAt == input.now
            && first.a.units[id].PositionAt(input.now) == s.a.units[id].PositionAt(input.now)
            && first.a.units[id].version == s.a.units[id].version + 1
  {
    hide MoveHandled, Course.Ok, Unit.PositionAt;
    var c := input.command;
    DirectMovesAreObeyed(graph, s.At(input.now), input.issuer, c.unitID, c.destination, turn.course.first);
    MovesAreTheOwners(graph, s.At(input.now), input.issuer, c.unitID, c.destination, turn.course.first);
  }

  lemma MovesAreTheOwners(graph: Graph, s: Snapshot, issuer: string, unitID: string, d: Destination, t: Snapshot)
    requires MoveHandled(graph, s, issuer, unitID, d, false, Accepted, t)
    ensures unitID in s.a.units && s.a.units[unitID].owner == issuer
  {
    hide Posted, StrandsByQueueing, Directed;
  }

  /** And it leads to the province named; or if it names a point of an edge, to the nearer end of that edge. */
  lemma DirectMovesLeadThere(graph: Graph, s: Snapshot, issuer: string, unitID: string, d: Destination, t: Snapshot)
    requires MoveHandled(graph, s, issuer, unitID, d, false, Accepted, t) && IsHypot(graph.hypot)
    requires forall p | p in s.a.provinces :: s.a.provinces[p].id == p
    ensures unitID in t.a.units && t.a.units[unitID].HasLeg()
    ensures var path := t.a.units[unitID].path;
            var goal := path[|path| - 1].toProv;
            match d
            case Garbled => false
            case ByProvince(_, to) => goal == to
            case ByEdge(a, b, p, pos) =>
              a in graph.coords && b in graph.coords && 0.0 <= p <= 1.0
              && PointOf(graph.coords[a], graph.coords[b], p, pos) ==>
                NearerEnd(graph, a, b, pos, goal)
            case ByNode(province, pos) => if province == "" then Beside(graph, pos, goal) else goal == province
  {
    hide Posted, StrandsByQueueing, Departs, Answered, ShutOut, Unit.PositionAt, NearerEnd, PointOf, SnapsTo, Beside,
         IsHypot;
    var u, v, now := s.a.units[unitID], t.a.units[unitID], s.a.clock;
    var target :| Means(graph, s.a.provinces, d, target)
      && Directed(s.ledger, graph, s.a.provinces, u, target, now, Accepted, v);
    DeparturesAreContinuous(s.ledger, graph, s.a.provinces, Redirected(u), u.PositionAt(now), target, now, v);
    match d {
      case ByNode(province, pos) =>
        if province == "" {
          var p :| SnapsTo(graph, pos, p) && target.province == NodeOf(p);
          SnappingIsBeside(graph, pos, p);
        }
      case ByEdge(a, b, p, pos) =>
        if a in graph.coords && b in graph.coords && 0.0 <= p <= 1.0
           && PointOf(graph.coords[a], graph.coords[b], p, pos) {
          TheGoalIsTheNearerEnd(graph, a, b, p, pos);
        }
      case _ =>
    }
  }

  /** Where a bare point of the map belongs: if there is a province within 24, to a nearest one; else to the first
      end of the first of the nearest edges, if that is within 20; else to a nearest province again, if there is
      any. */
  ghost predicate Beside(graph: Graph, pos: Vec, p: string) {
    if exists q :: q in graph.coords && Distance(graph.hypot, pos, graph.coords[q]) <= 24.0 then
      NearestOf(graph, pos, p)
    else if exists k :: 0 <= k < |graph.edges| && EdgeDistance(graph, pos, k) <= 20.0 then
      exists k :: 0 <= k < |graph.edges| && graph.edges[k].from == p && EdgeDistance(graph, pos, k) <= 20.0
        && forall j | 0 <= j < |graph.edges| ::
             if j < k then EdgeDistance(graph, pos, k) < EdgeDistance(graph, pos, j)
             else EdgeDistance(graph, pos, k) <= EdgeDistance(graph, pos, j)
    else if exists q :: q in graph.coords && Distance(graph.hypot, pos, graph.coords[q]) < MAX_FLOAT then
      NearestOf(graph, pos, p)
    else p == ""
  }

  ghost predicate NearestOf(graph: Graph, pos: Vec, p: string) {
    && p in graph.coords
    && forall q | q in graph.coords ::
         Distance(graph.hypot, pos, graph.coords[p]) <= Distance(graph.hypot, pos, graph.coords[q])
  }

  /** Some edge in range is the first of the nearest. */
  lemma {:induction false} SomeEdgeIsNearest(graph: Graph, pos: Vec, n: nat) returns (k: nat)
    requires 0 < n <= |graph.edges|
    ensures k < n
    ensures forall j | 0 <= j < n ::
              if j < k then EdgeDistance(graph, pos, k) < EdgeDistance(graph, pos, j)
              else EdgeDistance(graph, pos, k) <= EdgeDistance(graph, pos, j)
  {
    hide EdgeDistance;
    k := 0;
    if n > 1 {
      k := SomeEdgeIsNearest(graph, pos, n - 1);
      if EdgeDistance(graph, pos, n - 1) < EdgeDistance(graph, pos, k) {
        k := n - 1;
      }
    }
  }

  lemma SnappingIsBeside(graph: Graph, pos: Vec, t: Target)
    requires SnapsTo(graph, pos, t)
    ensures Beside(graph, pos, NodeOf(t))
  {
    hide EdgeDistance, Distance;
    if (exists k :: 0 <= k < |graph.edges| && EdgeDistance(graph, pos, k) <= 20.0) && !SomeNodeNear(graph, pos) {
      var k := SomeEdgeIsNearest(graph, pos, |graph.edges|);
      assert SnapsToEdge(graph, pos, k);
      var m :| SnapsToEdge(graph, pos, m) && t == SnappedTo(graph, pos, m);
      EdgesInRangeAreKnown(graph, pos, m);
    }
  }

  lemma EdgesInRangeAreKnown(graph: Graph, pos: Vec, k: nat)
    requires k < |graph.edges| && EdgeDistance(graph, pos, k) <= EDGE_SNAP_MAX_DIST
    ensures graph.edges[k].from in graph.coords && graph.edges[k].to in graph.coords
  {
  }

  /** In an hour, infantry covers a distance of 50, cavalry 100 and armor 80; and nothing else moves. */
  lemma HourlyMarches(kind: string)
    ensures UnitKind(kind).Known? <==> kind in {"infantry", "cavalry", "armor"}
    ensures UnitKind(kind).Known? ==>
        var far := if kind == "infantry" then 50.0 else if kind == "cavalry" then 100.0 else 80.0;
        TravelTime(far, UnitKind(kind).value.speed) == HOUR
  {
    if UnitKind(kind).Known? {
      var far := if kind == "infantry" then 50.0 else if kind == "cavalry" then 100.0 else 80.0;
      assert far / UnitKind(kind).value.speed == 3600.0;
    }
  }

  lemma PlacesIgnorePlans(u: Unit, now: int)
    ensures Redirected(u).PositionAt(now) == u.PositionAt(now)
  {
  }

  /** Moves queued for a unit in flight are kept in the order in which they were ordered, after those it had
      already, and change nothing else about it. */
  lemma QueuedMovesWaitInLine(l: Ledger, graph: Graph, provinces: ProvinceTable, u: Unit, a: Target, b: Target,
                              now: int, later: int, v: Unit, w: Unit, reply: Reply, reply': Reply)
    requires QueuedUp(l, graph, provinces, u, a, now, reply, v) && QueuedUp(l, graph, provinces, v, b, later, reply', w)
    requires u.IsMoving(now) && u.IsMoving(later)
    ensures reply == reply' == Accepted && w == u.(waypoints := w.waypoints)
    ensures |w.waypoints| == |u.waypoints| + 2 && w.waypoints[..|u.waypoints|] == u.waypoints
    ensures w.waypoints[|u.waypoints|] == a && w.waypoints[|u.waypoints| + 1] == b
  {
  }

  /** A unit that is not in flight sets out for the first of its waypoints, counting the new one last. */
  lemma TheFirstInLineIsNext(l: Ledger, graph: Graph, provinces: ProvinceTable, u: Unit, target: Target, now: int,
      v: Unit)
    requires QueuedUp(l, graph, provinces, u, target, now, Accepted, v) && !u.IsMoving(now)
    ensures var line := u.waypoints + [target];
            v.HasLeg() && v.path[|v.path| - 1].to == line[0].pos && v.waypoints == line[1..]
            && v.version == u.version + 1
  {
    hide Departs;
    var w := NewOrder(WithWaypoint(u, target));
    DeparturesAreContinuous(l, graph, provinces, NextWaypointTaken(w), u.originPos, w.waypoints[0], now, v);
  }

  /** A unit that departs takes its time on each leg of its way, which is a shortest one. */
  lemma DeparturesAreOnTime(l: Ledger, graph: Graph, provinces: ProvinceTable, u: Unit, from: Vec, target: Target,
      now: int, v: Unit, i: nat)
    requires Departs(l, graph, provinces, u, from, target, now, v) && IsHypot(graph.hypot) && i < |v.path|
    ensures OnTime(Distance(graph.hypot, v.path[i].from, v.path[i].to), u.speed,
        v.path[i].arrivesAt - (if i == 0 then now else v.path[i - 1].arrivesAt))
  {
    hide Answered, Barred, OnTime;
    var legs :| Routed(l, graph, provinces, u, from, target, legs)
      && v == WithPath(u, Schedule(graph.hypot, u.speed, legs, now), now);
    LegsAreOnTime(graph.hypot, u.speed, legs, now, i);
  }
}
