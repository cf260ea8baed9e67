/** The engine as a state machine: the parts of a match that the queue of events must agree
    with, the steps that the event loop and the commands are made of, and what every step keeps. */
module Agendas {
  import opened Routes
  import opened Units
  import opened Timelines
  import opened Economy
  import opened MatchState

  datatype Agenda = Agenda(
    players: set<string>, provinces: ProvinceTable, units: UnitTable, pending: set<Event>, clock: int,
    recruits: OrderTable, builds: OrderTable,
    active: bool, cleanupDone: bool, log: seq<AppliedEvent>, seqNo: nat,
    ids: set<string>,        // every id ever handed out
    busy: set<string>,       // units whose arrival is being handled right now
    stranded: set<string>,   // units whose arrival was superseded and never replaced
    paid: set<string>,       // recruit orders ever paid for
    delivered: set<string>,  // those that became a unit
    refunded: set<string>)   // those whose price was halved and given back
  {
    /** The invariant of every reachable agenda. */
    ghost predicate Ok() {
      && RosterOk(units, provinces, players) && TravelOk(units, pending, clock, busy, stranded)
      && Booked(recruits, pending, RecruitComplete) && Booked(builds, pending, ConstructComplete)
      && Sensible(recruits, players) && Sensible(builds, players) && Catalogued(recruits)
      && EndingOk(active, cleanupDone, pending, log) && LogOk(log, seqNo)
      && IdsKnown() && Balanced()
    }

    /** Every id in use has been handed out; "" is the id of nobody. */
    ghost predicate IdsKnown() {
      && "" in ids && "" !in units && units.Keys <= ids && Queued(recruits) <= ids && Queued(builds) <= ids
      && stranded <= ids
      && forall e | e in pending :: e.unitID in ids
    }

    /** Every paid order is still queued, or was delivered, or was refunded, and only one of these. */
    ghost predicate Balanced() {
      && paid == Queued(recruits) + delivered + refunded && paid <= ids
      && Queued(recruits) !! delivered !! refunded
    }
  }

  /** Units move by the book.  Each one that has a leg to complete has exactly one arrival to wait
      for, unless that arrival is being handled just now, or the unit is stranded: then its leg has
      ended, and nobody waits for it. */
  ghost predicate TravelOk(units: UnitTable, pending: set<Event>, clock: int, busy: set<string>, stranded: set<string>)
  {
    && MotionOk(units) && ArrivalsOk(units, pending)
    && Attended(units, pending, busy + stranded) && Overdue(units, clock, stranded) && busy !! stranded
    && forall id | id in busy + stranded :: Unawaited(units, pending, id)
  }

  /** The agenda may take u in place of the record under its id. */
  ghost predicate MayReplace(units: UnitTable, busy: set<string>, u: Unit) {
    && u.id in units && u.speed > 0.0 && u.owner == units[u.id].owner
    && if u.version == units[u.id].version then busy == {u.id} else units[u.id].version < u.version && busy == {}
  }

  /** Orders are placed by players. */
  ghost predicate Sensible(orders: OrderTable, players: set<string>) {
    forall p {:trigger orders[p]} | p in orders :: orders[p].owner in players
  }

  /** What is being recruited exists. */
  ghost predicate Catalogued(recruits: OrderTable) {
    forall p {:trigger recruits[p]} | p in recruits :: UnitKind(recruits[p].what).Known?
  }

  predicate Neutral(kind: EventKind) {
    kind.MacroPulse? || kind.VictoryCheck? || kind.CombatStart? || kind.CombatTick?
  }

  datatype Step =
    | Tick(now: int)                                  // the clock advances
    | TakeArrival(e: Event)                           // an arrival is popped
    | TakeNeutral(e: Event)                           // a pulse or a victory check is popped
    | PutPulse(e: Event)                              // the next pulse is scheduled
    | Tell(out: seq<AppliedEvent>, at: int)           // reports are numbered and filed
    | Thin(after: UnitTable, provinces: ProvinceTable) // combat: some units die, some change colours
    | Steer(u: Unit)                                  // a unit gets a new course or ends its leg
    | Plan(id: string, waypoints: seq<Target>)        // its waypoints change
    | Await(e: Event)                                 // its next arrival is scheduled
    | Settle(id: string)                              // it stays where it is
    | Strand(id: string)                              // its leg has ended, but nobody will notice
    | PlaceRecruit(order: Order, e: Event)            // an order is paid and scheduled
    | PlaceBuild(order: Order, e: Event)
    | Deliver(e: Event, p: string, u: Unit)           // a recruit order completes as a unit
    | Refund(e: Event, p: string)                     // or is refunded
    | FinishBuild(e: Event, p: string)
    | Decide(r: AppliedEvent, e: Event)               // the match ends, its cleanup is scheduled
    | CleanUp(e: Event, r: AppliedEvent)

  ghost predicate Enabled(a: Agenda, s: Step) {
    match s
    case Tick(now) => a.busy == {} && a.clock <= now
    case TakeArrival(e) => a.busy == {} && e in a.pending && e.kind == Arrival
    case TakeNeutral(e) => a.busy == {} && e in a.pending && Neutral(e.kind)
    case PutPulse(e) => e.kind == MacroPulse && e.unitID == ""
    case Tell(out, at) => Quiet(out, at) && LogOk(a.log + out, a.seqNo + |out|)
    case Thin(after, provinces) => Trimmed(a.units, after) && RosterOk(after, provinces, a.players)
    case Steer(u) => MayReplace(a.units, a.busy, u) && u.WellFormed()
    case Plan(id, waypoints) => id in a.units
    case Await(e) =>
      && e.kind == Arrival && a.busy == {e.unitID} && e.unitID in a.units
      && e.version == a.units[e.unitID].version
      && a.units[e.unitID].HasLeg() && e.at == a.units[e.unitID].CurrentLeg().arrivesAt
    case Settle(id) => a.busy == {id} && (id in a.units ==> !a.units[id].HasLeg())
    case Strand(id) =>
      a.busy == {id} && id in a.units && a.units[id].HasLeg() && a.units[id].CurrentLeg().arrivesAt <= a.clock
    case PlaceRecruit(order, e) =>
      && order.province !in a.recruits && order.id !in a.ids && e !in a.pending && order.owner in a.players
      && UnitKind(order.what).Known? && e.kind == RecruitComplete && e.unitID == order.id && e.at == order.completesAt
    case PlaceBuild(order, e) =>
      && order.province !in a.builds && order.id !in a.ids && e !in a.pending && order.owner in a.players
      && e.kind == ConstructComplete && e.unitID == order.id && e.at == order.completesAt
    case Deliver(e, p, u) =>
      && a.busy == {} && e in a.pending && e.kind == RecruitComplete && p in a.recruits && a.recruits[p].id == e.unitID
      && u.id !in a.ids && u.WellFormed() && !u.HasLeg() && u.speed > 0.0
      && u.owner == a.recruits[p].owner && u.kind == a.recruits[p].what
    case Refund(e, p) =>
      a.busy == {} && e in a.pending && e.kind == RecruitComplete && p in a.recruits && a.recruits[p].id == e.unitID
    case FinishBuild(e, p) =>
      a.busy == {} && e in a.pending && e.kind == ConstructComplete && p in a.builds && a.builds[p].id == e.unitID
    case Decide(r, e) =>
      && a.active && r.kind == MatchEnded && LogOk(a.log + [r], a.seqNo + 1)
      && e.kind == MatchCleanup && e.unitID == ""
    case CleanUp(e, r) =>
      && a.busy == {} && e in a.pending && e.kind == MatchCleanup
      && r.kind == MatchCleaned && LogOk(a.log + [r], a.seqNo + 1)
  }

  ghost function Do(a: Agenda, s: Step): Agenda
    requires Enabled(a, s)
  {
    match s
    case Tick(now) => a.(clock := now)
    case TakeArrival(e) => a.(pending := a.pending - {e}, busy := if Current(a.units, e) then {e.unitID} else {})
    case TakeNeutral(e) => a.(pending := a.pending - {e})
    case PutPulse(e) => a.(pending := a.pending + {e})
    case Tell(out, at) => a.(log := a.log + out, seqNo := a.seqNo + |out|)
    case Thin(after, provinces) => a.(units := after, provinces := provinces)
    case Steer(u) => a.(units := a.units[u.id := u], busy := {u.id}, stranded := a.stranded - {u.id})
    case Plan(id, waypoints) => a.(units := a.units[id := a.units[id].(waypoints := waypoints)])
    case Await(e) => a.(pending := a.pending + {e}, busy := {})
    case Settle(id) => a.(busy := {})
    case Strand(id) => a.(busy := {}, stranded := a.stranded + {id})
    case PlaceRecruit(order, e) =>
      a.(recruits := a.recruits[order.province := order], pending := a.pending + {e}, ids := a.ids + {order.id},
         paid := a.paid + {order.id})
    case PlaceBuild(order, e) =>
      a.(builds := a.builds[order.province := order], pending := a.pending + {e}, ids := a.ids + {order.id})
    case Deliver(e, p, u) =>
      a.(recruits := a.recruits - {p}, pending := a.pending - {e}, units := a.units[u.id := u], ids := a.ids + {u.id},
         delivered := a.delivered + {e.unitID})
    case Refund(e, p) =>
      a.(recruits := a.recruits - {p}, pending := a.pending - {e}, refunded := a.refunded + {e.unitID})
    case FinishBuild(e, p) => a.(builds := a.builds - {p}, pending := a.pending - {e})
    case Decide(r, e) => a.(active := false, log := a.log + [r], seqNo := a.seqNo + 1, pending := a.pending + {e})
    case CleanUp(e, r) => a.(pending := a.pending - {e}, cleanupDone := true, log := a.log + [r], seqNo := a.seqNo + 1)
  }

  ghost predicate Initial(a: Agenda) {
    && (forall id {:trigger a.units[id]} | id in a.units ::
          a.units[id].WellFormed() && a.units[id].speed > 0.0 && !a.units[id].HasLeg())
    && (forall e | e in a.pending :: Neutral(e.kind) && e.unitID == "")
    && a.recruits == map[] && a.builds == map[] && a.active && !a.cleanupDone && a.log == [] && a.seqNo == 0
    && RosterOk(a.units, a.provinces, a.players)
    && "" !in a.units && a.ids == a.units.Keys + {""} && a.busy == {} && a.stranded == {}
    && a.paid == {} && a.delivered == {} && a.refunded == {}
  }

  /** The agendas that some run of a match leads to. */
  least predicate Attainable(a: Agenda) {
    Initial(a) || exists b, s :: Attainable(b) && Enabled(b, s) && a == Do(b, s)
  }

  // ---------- what every step keeps ----------

  lemma PopKeepsTravel(units: UnitTable, pending: set<Event>, clock: int, stranded: set<string>, e: Event)
    requires TravelOk(units, pending, clock, {}, stranded) && e in pending
    ensures TravelOk(units, pending - {e}, clock, if Current(units, e) then {e.unitID} else {}, stranded)
    ensures !Current(units, e) ==> TravelOk(units, pending - {e}, clock, {}, stranded)
  {
    hide Current, MotionOk, ArrivalsOk, Attended;
    assert {} + stranded == stranded;
    PopKeepsArrivals(units, pending, e, stranded);
    assert Current(units, e) ==> e.unitID !in stranded;
    PopKeepsUnawaited(units, pending, e);
  }

  lemma PopKeepsUnawaited(units: UnitTable, pending: set<Event>, e: Event)
    ensures forall id :: Unawaited(units, pending, id) ==> Unawaited(units, pending - {e}, id)
  {
  }

  lemma PushKeepsTravel(units: UnitTable, pending: set<Event>, clock: int, busy: set<string>, stranded: set<string>,
      e: Event)
    requires TravelOk(units, pending, clock, busy, stranded) && e.kind != Arrival
    ensures TravelOk(units, pending + {e}, clock, busy, stranded)
  {
    hide Unawaited, MotionOk, ArrivalsOk, Attended;
    OtherEventKeepsArrivals(units, pending, e, busy + stranded);
  }

  lemma TrimKeepsTravel(units: UnitTable, pending: set<Event>, clock: int, busy: set<string>, stranded: set<string>,
                        after: UnitTable)
    requires TravelOk(units, pending, clock, busy, stranded) && Trimmed(units, after)
    ensures TravelOk(after, pending, clock, busy, stranded)
  {
    hide Unawaited, MotionOk, ArrivalsOk, Attended, Trimmed, Overdue;
    TrimKeepsArrivals(units, after, pending, busy + stranded);
  }

  lemma SteerKeepsTravel(units: UnitTable, pending: set<Event>, clock: int, busy: set<string>, stranded: set<string>,
      u: Unit)
    requires TravelOk(units, pending, clock, busy, stranded) && u.id in units && MayReplace(units, busy, u)
    requires u.WellFormed()
    ensures TravelOk(units[u.id := u], pending, clock, {u.id}, stranded - {u.id})
  {
    hide Unawaited, ArrivalsOk, Attended, Unit.WellFormed;
    UpdateKeepsArrivals(units, pending, u.id, u, busy + stranded);
    assert {u.id} + (busy + stranded) == {u.id} + (stranded - {u.id});
  }

  lemma PlanKeepsTravel(units: UnitTable, pending: set<Event>, clock: int, busy: set<string>, stranded: set<string>,
                        id: string, waypoints: seq<Target>)
    requires TravelOk(units, pending, clock, busy, stranded) && id in units
    ensures TravelOk(units[id := units[id].(waypoints := waypoints)], pending, clock, busy, stranded)
  {
    hide Unawaited, ArrivalsOk, Attended, MotionOk;
    ReplanKeepsArrivals(units, pending, id, waypoints, busy + stranded);
  }

  lemma AwaitKeepsTravel(units: UnitTable, pending: set<Event>, clock: int, stranded: set<string>, e: Event)
    requires TravelOk(units, pending, clock, {e.unitID}, stranded) && e.kind == Arrival && e.unitID in units
    requires e.version == units[e.unitID].version && units[e.unitID].HasLeg()
    requires e.at == units[e.unitID].CurrentLeg().arrivesAt
    ensures TravelOk(units, pending + {e}, clock, {}, stranded)
  {
    hide Unawaited, ArrivalsOk, Attended, MotionOk, Overdue;
    assert e.unitID in {e.unitID} + stranded && {} + stranded == stranded;
    ScheduleKeepsArrivals(units, pending, e, stranded);
  }

  lemma SettleKeepsTravel(units: UnitTable, pending: set<Event>, clock: int, stranded: set<string>, id: string)
    requires TravelOk(units, pending, clock, {id}, stranded) && (id in units ==> !units[id].HasLeg())
    ensures TravelOk(units, pending, clock, {}, stranded)
  {
    IdleNeedsNoArrival(units, pending, id, stranded);
    assert {} + stranded == stranded;
  }

  lemma StrandKeepsTravel(units: UnitTable, pending: set<Event>, clock: int, stranded: set<string>, id: string)
    requires TravelOk(units, pending, clock, {id}, stranded)
    requires id in units && units[id].HasLeg() && units[id].CurrentLeg().arrivesAt <= clock
    ensures TravelOk(units, pending, clock, {}, stranded + {id})
  {
    assert {} + (stranded + {id}) == {id} + stranded;
  }

  lemma RecruitKeepsTravel(units: UnitTable, pending: set<Event>, clock: int, stranded: set<string>, u: Unit)
    requires TravelOk(units, pending, clock, {}, stranded) && u.WellFormed() && u.speed > 0.0 && !u.HasLeg()
    requires u.id !in units && u.id !in stranded && forall e | e in pending :: e.unitID != u.id
    ensures TravelOk(units[u.id := u], pending, clock, {}, stranded)
  {
    hide Unawaited, ArrivalsOk, Attended, Unit.WellFormed;
    assert {} + stranded == stranded;
    RecruitKeepsArrivals(units, pending, u, stranded);
  }

  /** Changing the queue by events that neither the orders nor the ending depend on. */
  lemma QueueIndifferent(a: Agenda, b: Agenda)
    requires a.Ok()
    requires b == a.(pending := b.pending, units := b.units, busy := b.busy, stranded := b.stranded, clock := b.clock)
    requires forall e: Event {:trigger e.kind} |
        e.kind == RecruitComplete || e.kind == ConstructComplete || e.kind == MatchCleanup ::
            e in a.pending <==> e in b.pending
    ensures Booked(b.recruits, b.pending, RecruitComplete) && Booked(b.builds, b.pending, ConstructComplete)
    ensures EndingOk(b.active, b.cleanupDone, b.pending, b.log)
  {
    OtherEventKeepsBooked(a.recruits, a.pending, b.pending, RecruitComplete);
    OtherEventKeepsBooked(a.builds, a.pending, b.pending, ConstructComplete);
    OtherEventKeepsEnding(a.active, a.cleanupDone, a.pending, b.pending, a.log);
  }

  lemma TickKeeps(a: Agenda, now: int)
    requires a.Ok() && Enabled(a, Tick(now))
    ensures Do(a, Tick(now)).Ok()
  {
  }

  lemma TakeArrivalKeeps(a: Agenda, e: Event)
    requires a.Ok() && Enabled(a, TakeArrival(e))
    ensures Do(a, TakeArrival(e)).Ok()
  {
    hide TravelOk, Booked, EndingOk;
    PopKeepsTravel(a.units, a.pending, a.clock, a.stranded, e);
    QueueIndifferent(a, Do(a, TakeArrival(e)));
  }

  lemma TakeNeutralKeeps(a: Agenda, e: Event)
    requires a.Ok() && Enabled(a, TakeNeutral(e))
    ensures Do(a, TakeNeutral(e)).Ok()
  {
    hide TravelOk, Booked, EndingOk;
    PopKeepsTravel(a.units, a.pending, a.clock, a.stranded, e);
    QueueIndifferent(a, Do(a, TakeNeutral(e)));
  }

  lemma PutPulseKeeps(a: Agenda, e: Event)
    requires a.Ok() && Enabled(a, PutPulse(e))
    ensures Do(a, PutPulse(e)).Ok()
  {
    hide TravelOk, Booked, EndingOk;
    PushKeepsTravel(a.units, a.pending, a.clock, a.busy, a.stranded, e);
    QueueIndifferent(a, Do(a, PutPulse(e)));
  }

  lemma TellKeeps(a: Agenda, out: seq<AppliedEvent>, at: int)
    requires a.Ok() && Enabled(a, Tell(out, at))
    ensures Do(a, Tell(out, at)).Ok()
  {
    hide TravelOk, Booked;
    CountJoins(a.log, out, MatchEnded);
    CountJoins(a.log, out, MatchCleaned);
    QuietCountsNothing(out, at);
  }

  lemma ThinKeeps(a: Agenda, after: UnitTable, provinces: ProvinceTable)
    requires a.Ok() && Enabled(a, Thin(after, provinces))
    ensures Do(a, Thin(after, provinces)).Ok()
  {
    hide TravelOk, Booked, EndingOk;
    TrimKeepsTravel(a.units, a.pending, a.clock, a.busy, a.stranded, after);
  }

  lemma SteerKeeps(a: Agenda, u: Unit)
    requires a.Ok() && Enabled(a, Steer(u))
    ensures Do(a, Steer(u)).Ok()
  {
    hide TravelOk, Booked, EndingOk;
    SteerKeepsTravel(a.units, a.pending, a.clock, a.busy, a.stranded, u);
  }

  lemma PlanKeeps(a: Agenda, id: string, waypoints: seq<Target>)
    requires a.Ok() && Enabled(a, Plan(id, waypoints))
    ensures Do(a, Plan(id, waypoints)).Ok()
  {
    hide TravelOk, Booked, EndingOk;
    PlanKeepsTravel(a.units, a.pending, a.clock, a.busy, a.stranded, id, waypoints);
  }

  lemma AwaitKeeps(a: Agenda, e: Event)
    requires a.Ok() && Enabled(a, Await(e))
    ensures Do(a, Await(e)).Ok()
  {
    hide TravelOk, Booked, EndingOk;
    AwaitKeepsTravel(a.units, a.pending, a.clock, a.stranded, e);
    QueueIndifferent(a, Do(a, Await(e)));
  }

  lemma SettleKeeps(a: Agenda, id: string)
    requires a.Ok() && Enabled(a, Settle(id))
    ensures Do(a, Settle(id)).Ok()
  {
    hide TravelOk;
    SettleKeepsTravel(a.units, a.pending, a.clock, a.stranded, id);
  }

  lemma StrandKeeps(a: Agenda, id: string)
    requires a.Ok() && Enabled(a, Strand(id))
    ensures Do(a, Strand(id)).Ok()
  {
    hide TravelOk;
    StrandKeepsTravel(a.units, a.pending, a.clock, a.stranded, id);
  }

  lemma PlaceRecruitKeeps(a: Agenda, order: Order, e: Event)
    requires a.Ok() && Enabled(a, PlaceRecruit(order, e))
    ensures Do(a, PlaceRecruit(order, e)).Ok()
  {
    hide TravelOk, Booked, EndingOk;
    var b := Do(a, PlaceRecruit(order, e));
    assert order.id !in Queued(a.recruits);
    BookKeepsBooked(a.recruits, a.pending, RecruitComplete, order, e);
    OtherEventKeepsBooked(a.builds, a.pending, b.pending, ConstructComplete);
    OtherEventKeepsEnding(a.active, a.cleanupDone, a.pending, b.pending, a.log);
    PushKeepsTravel(a.units, a.pending, a.clock, a.busy, a.stranded, e);
    QueuedPlus(a.recruits, order);
    assert order.id !in a.paid;
    assert b.IdsKnown() && b.Balanced();
  }

  lemma PlaceBuildKeeps(a: Agenda, order: Order, e: Event)
    requires a.Ok() && Enabled(a, PlaceBuild(order, e))
    ensures Do(a, PlaceBuild(order, e)).Ok()
  {
    hide TravelOk, Booked, EndingOk;
    var b := Do(a, PlaceBuild(order, e));
    assert order.id !in Queued(a.builds);
    BookKeepsBooked(a.builds, a.pending, ConstructComplete, order, e);
    OtherEventKeepsBooked(a.recruits, a.pending, b.pending, RecruitComplete);
    OtherEventKeepsEnding(a.active, a.cleanupDone, a.pending, b.pending, a.log);
    PushKeepsTravel(a.units, a.pending, a.clock, a.busy, a.stranded, e);
    QueuedPlus(a.builds, order);
  }

  lemma QueuedPlus(orders: OrderTable, order: Order)
    requires order.province !in orders
    ensures Queued(orders[order.province := order]) == Queued(orders) + {order.id}
  {
    var orders' := orders[order.province := order];
    assert orders'[order.province].id in Queued(orders');
    forall p | p in orders
      ensures orders[p].id in Queued(orders')
    {
      assert orders'[p].id in Queued(orders');
    }
  }

  lemma QueuedMinus(orders: OrderTable, p: string)
    requires Filed(orders) && p in orders
    ensures Queued(orders - {p}) == Queued(orders) - {orders[p].id}
  {
    forall q | q in orders && q != p
      ensures orders[q].id in Queued(orders - {p})
    {
      assert (orders - {p})[q].id == orders[q].id;
    }
  }

  /** Moving one id from the queue to one of the outcomes keeps the books balanced. */
  lemma Transfer(paid: set<string>, queued: set<string>, delivered: set<string>, refunded: set<string>, id: string)
    requires paid == queued + delivered + refunded && queued !! delivered !! refunded && id in queued
    ensures paid == (queued - {id}) + (delivered + {id}) + refunded && (queued - {id}) !! (delivered + {id}) !! refunded
    ensures paid == (queued - {id}) + delivered + (refunded + {id}) && (queued - {id}) !! delivered !! (refunded + {id})
  {
  }

  lemma SettleRecruit(a: Agenda, e: Event, p: string)
    requires a.Ok() && e in a.pending && e.kind == RecruitComplete && p in a.recruits && a.recruits[p].id == e.unitID
    requires a.busy == {}
    ensures var pending := a.pending - {e};
            && TravelOk(a.units, pending, a.clock, {}, a.stranded)
            && Booked(a.recruits - {p}, pending, RecruitComplete) && Booked(a.builds, pending, ConstructComplete)
            && EndingOk(a.active, a.cleanupDone, pending, a.log)
    ensures Queued(a.recruits - {p}) == Queued(a.recruits) - {e.unitID} && e.unitID in Queued(a.recruits)
  {
    var pending := a.pending - {e};
    SettleKeepsBooked(a.recruits, a.pending, RecruitComplete, e, p);
    OtherEventKeepsBooked(a.builds, a.pending, pending, ConstructComplete);
    OtherEventKeepsEnding(a.active, a.cleanupDone, a.pending, pending, a.log);
    PopKeepsTravel(a.units, a.pending, a.clock, a.stranded, e);
    QueuedMinus(a.recruits, p);
  }

  lemma DeliverKeeps(a: Agenda, e: Event, p: string, u: Unit)
    requires a.Ok() && Enabled(a, Deliver(e, p, u))
    ensures Do(a, Deliver(e, p, u)).Ok()
  {
    hide TravelOk, Booked, EndingOk, LogOk, Queued;
    var b := Do(a, Deliver(e, p, u));
    SettleRecruit(a, e, p);
    Transfer(a.paid, Queued(a.recruits), a.delivered, a.refunded, e.unitID);
    RecruitKeepsTravel(a.units, a.pending - {e}, a.clock, a.stranded, u);
    assert b.IdsKnown() && b.Balanced();
  }

  lemma RefundKeeps(a: Agenda, e: Event, p: string)
    requires a.Ok() && Enabled(a, Refund(e, p))
    ensures Do(a, Refund(e, p)).Ok()
  {
    hide TravelOk, Booked;
    var b := Do(a, Refund(e, p));
    SettleRecruit(a, e, p);
    Transfer(a.paid, Queued(a.recruits), a.delivered, a.refunded, e.unitID);
    assert b.IdsKnown() && b.Balanced();
  }

  lemma FinishBuildKeeps(a: Agenda, e: Event, p: string)
    requires a.Ok() && Enabled(a, FinishBuild(e, p))
    ensures Do(a, FinishBuild(e, p)).Ok()
  {
    hide TravelOk, EndingOk, LogOk, RosterOk;
    var pending := a.pending - {e};
    SettleKeepsBooked(a.builds, a.pending, ConstructComplete, e, p);
    OtherEventKeepsBooked(a.recruits, a.pending, pending, RecruitComplete);
    OtherEventKeepsEnding(a.active, a.cleanupDone, a.pending, pending, a.log);
    PopKeepsTravel(a.units, a.pending, a.clock, a.stranded, e);
    QueuedMinus(a.builds, p);
  }

  lemma DecideKeeps(a: Agenda, r: AppliedEvent, e: Event)
    requires a.Ok() && Enabled(a, Decide(r, e))
    ensures Do(a, Decide(r, e)).Ok()
  {
    hide TravelOk, Booked;
    var full := a.pending + {e};
    CountOneMore(a.log, r, MatchEnded);
    CountOneMore(a.log, r, MatchCleaned);
    PushKeepsTravel(a.units, a.pending, a.clock, a.busy, a.stranded, e);
    OtherEventKeepsBooked(a.recruits, a.pending, full, RecruitComplete);
    OtherEventKeepsBooked(a.builds, a.pending, full, ConstructComplete);
    assert OnlyCleanup(full, e);
  }

  lemma CleanUpKeeps(a: Agenda, e: Event, r: AppliedEvent)
    requires a.Ok() && Enabled(a, CleanUp(e, r))
    ensures !a.active && !a.cleanupDone && Do(a, CleanUp(e, r)).Ok()
  {
    hide TravelOk, Booked;
    var rest := a.pending - {e};
    assert !a.active && !a.cleanupDone;
    PopKeepsTravel(a.units, a.pending, a.clock, a.stranded, e);
    OtherEventKeepsBooked(a.recruits, a.pending, rest, RecruitComplete);
    OtherEventKeepsBooked(a.builds, a.pending, rest, ConstructComplete);
    CountOneMore(a.log, r, MatchEnded);
    CountOneMore(a.log, r, MatchCleaned);
    var o :| OnlyCleanup(a.pending, o);
  }

  /** No step breaks the invariant. */
  lemma EveryStepKeepsOk(a: Agenda, s: Step)
    requires a.Ok() && Enabled(a, s)
    ensures Do(a, s).Ok()
  {
    hide Agenda.Ok, Do, Enabled;
    match s
    case Tick(now) => TickKeeps(a, now);
    case TakeArrival(e) => TakeArrivalKeeps(a, e);
    case TakeNeutral(e) => TakeNeutralKeeps(a, e);
    case PutPulse(e) => PutPulseKeeps(a, e);
    case Tell(out, at) => TellKeeps(a, out, at);
    case Thin(after, provinces) => ThinKeeps(a, after, provinces);
    case Steer(u) => SteerKeeps(a, u);
    case Plan(id, waypoints) => PlanKeeps(a, id, waypoints);
    case Await(e) => AwaitKeeps(a, e);
    case Settle(id) => SettleKeeps(a, id);
    case Strand(id) => StrandKeeps(a, id);
    case PlaceRecruit(order, e) => PlaceRecruitKeeps(a, order, e);
    case PlaceBuild(order, e) => PlaceBuildKeeps(a, order, e);
    case Deliver(e, p, u) => DeliverKeeps(a, e, p, u);
    case Refund(e, p) => RefundKeeps(a, e, p);
    case FinishBuild(e, p) => FinishBuildKeeps(a, e, p);
    case Decide(r, e) => DecideKeeps(a, r, e);
    case CleanUp(e, r) => CleanUpKeeps(a, e, r);
  }

  lemma InitialIsOk(a: Agenda)
    requires Initial(a)
    ensures a.Ok()
  {
  }

  /** So it holds of every reachable agenda. */
  least lemma RunsKeepOk(a: Agenda)
    requires Attainable(a)
    ensures a.Ok()
  {
    if Initial(a) {
      InitialIsOk(a);
    } else {
      var b, s :| Attainable(b) && Enabled(b, s) && a == Do(b, s);
      RunsKeepOk(b);
      EveryStepKeepsOk(b, s);
    }
  }

  lemma AttainableIsOk(a: Agenda)
    requires Attainable(a)
    ensures a.Ok()
  {
    RunsKeepOk(a);
  }

  lemma NumbersAreRight(a: Agenda)
    requires Attainable(a)
    ensures LogOk(a.log, a.seqNo)
  {
    AttainableIsOk(a);
  }

  lemma TheRosterIsRight(a: Agenda)
    requires Attainable(a)
    ensures RosterOk(a.units, a.provinces, a.players)
  {
    AttainableIsOk(a);
  }

  lemma UnitsMoveByTheBook(a: Agenda, id: string)
    requires Attainable(a) && id in a.units
    ensures a.units[id].id == id && a.units[id].WellFormed() && a.units[id].speed > 0.0
  {
    AttainableIsOk(a);
  }

  /** A completion is always of an order that is still queued. */
  lemma CompletionHasOrder(a: Agenda, e: Event)
    requires Attainable(a) && e in a.pending
    ensures e.kind == RecruitComplete ==> HasOrder(a.recruits, e)
    ensures e.kind == ConstructComplete ==> HasOrder(a.builds, e)
  {
    AttainableIsOk(a);
  }

  lemma OrdersAreInOrder(a: Agenda, p: string)
    requires Attainable(a) && p in a.recruits
    ensures a.recruits[p].province == p && a.recruits[p].owner in a.players && a.recruits[p].owner != ""
    ensures UnitKind(a.recruits[p].what).Known?
  {
    AttainableIsOk(a);
  }

  /** The arrival that a unit waits for comes when its leg ends. */
  lemma CurrentArrivalEndsLeg(a: Agenda, e: Event)
    requires Attainable(a) && e in a.pending && Current(a.units, e)
    ensures a.units[e.unitID].id == e.unitID && a.units[e.unitID].HasLeg()
    ensures e.at == a.units[e.unitID].CurrentLeg().arrivesAt
  {
    AttainableIsOk(a);
    assert Punctual(a.units[e.unitID], e);
  }

  /** After a newer order, nobody waits for the arrival that the older one had scheduled. */
  lemma NewerOrdersSupersede(a: Agenda, u: Unit)
    requires Attainable(a) && u.id in a.units && a.units[u.id].version < u.version
    ensures Unawaited(a.units[u.id := u], a.pending, u.id)
  {
    AttainableIsOk(a);
    var units := a.units[u.id := u];
    forall e | e in a.pending && e.unitID == u.id
      ensures !Current(units, e)
    {
      if e.kind == Arrival {
        assert Punctual(a.units[e.unitID], e);
      }
    }
  }

  lemma TheBusyAreNotStranded(a: Agenda)
    requires Attainable(a)
    ensures a.busy !! a.stranded
  {
    AttainableIsOk(a);
  }

  lemma CleanupComesOnce(a: Agenda, e: Event)
    requires Attainable(a) && e in a.pending && e.kind == MatchCleanup
    ensures !a.active && !a.cleanupDone
  {
    AttainableIsOk(a);
  }

  lemma BuildsAreInOrder(a: Agenda, p: string)
    requires Attainable(a) && p in a.builds
    ensures a.builds[p].province == p && a.builds[p].owner in a.players && a.builds[p].owner != ""
  {
    AttainableIsOk(a);
  }

  /** Whoever owns a province is a player, and every order paid for has an id of its own. */
  lemma PayersArePlayers(a: Agenda, p: string)
    requires Attainable(a) && p in a.provinces
    ensures a.provinces[p].owner == "" || a.provinces[p].owner in a.players
    ensures a.paid <= a.ids
  {
    AttainableIsOk(a);
  }

  lemma IdsAreKnown(a: Agenda)
    requires Attainable(a)
    ensures a.IdsKnown()
  {
    AttainableIsOk(a);
  }

  // ---------- how a match runs ----------

  lemma Goes(a: Agenda, s: Step)
    requires Attainable(a) && Enabled(a, s)
    ensures Attainable(Do(a, s))
  {
  }

  /** A match begins with everyone at rest and nothing ordered. */
  lemma Begins(players: set<string>, provinces: ProvinceTable, units: UnitTable, now: int)
    requires RosterOk(units, provinces, players) && "" !in units
    requires forall id {:trigger units[id]} | id in units ::
        units[id].WellFormed() && units[id].speed > 0.0 && !units[id].HasLeg()
    ensures Attainable(Agenda(players, provinces, units, {}, now, map[], map[], true, false, [], 0, units.Keys + {""},
        {}, {}, {}, {}, {}))
  {
    var a := Agenda(players, provinces, units, {}, now, map[], map[], true, false, [], 0, units.Keys + {""},
        {}, {}, {}, {}, {});
    assert Initial(a);
  }

  /** A unit gets a new leg, and its arrival is scheduled. */
  lemma SetsOut(a: Agenda, u: Unit, e: Event)
    requires Attainable(a) && MayReplace(a.units, a.busy, u) && u.WellFormed() && u.HasLeg()
    requires e.kind == Arrival && e.unitID == u.id && e.version == u.version && e.at == u.CurrentLeg().arrivesAt
    ensures Attainable(a.(units := a.units[u.id := u], pending := a.pending + {e}, busy := {},
        stranded := a.stranded - {u.id}))
  {
    hide Attainable;
    Goes(a, Steer(u));
    Goes(Do(a, Steer(u)), Await(e));
  }

  /** A unit comes to rest. */
  lemma ComesToRest(a: Agenda, u: Unit)
    requires Attainable(a) && MayReplace(a.units, a.busy, u) && u.WellFormed() && !u.HasLeg()
    ensures Attainable(a.(units := a.units[u.id := u], busy := {}, stranded := a.stranded - {u.id}))
  {
    hide Attainable;
    Goes(a, Steer(u));
    Goes(Do(a, Steer(u)), Settle(u.id));
  }

  /** A unit whose leg has ended gets a new version, and nothing else. */
  lemma RunsAground(a: Agenda, u: Unit)
    requires Attainable(a) && MayReplace(a.units, a.busy, u) && u.WellFormed()
    requires u.HasLeg() && u.CurrentLeg().arrivesAt <= a.clock
    ensures Attainable(a.(units := a.units[u.id := u], busy := {}, stranded := a.stranded - {u.id} + {u.id}))
  {
    hide Attainable;
    Goes(a, Steer(u));
    Goes(Do(a, Steer(u)), Strand(u.id));
  }

  /** There is combat, and reports of it. */
  lemma LosesUnits(a: Agenda, after: UnitTable, provinces: ProvinceTable, out: seq<AppliedEvent>, at: int)
    requires Attainable(a) && Trimmed(a.units, after) && RosterOk(after, provinces, a.players)
    requires Quiet(out, at) && LogOk(a.log + out, a.seqNo + |out|)
    ensures Attainable(a.(units := after, provinces := provinces, log := a.log + out, seqNo := a.seqNo + |out|))
  {
    hide Attainable, Trimmed, RosterOk, Quiet, LogOk;
    Goes(a, Thin(after, provinces));
    Goes(Do(a, Thin(after, provinces)), Tell(out, at));
  }

  /** A recruit order becomes a unit. */
  lemma Delivers(a: Agenda, e: Event, p: string, u: Unit)
    requires Attainable(a) && a.busy == {} && e in a.pending && e.kind == RecruitComplete
    requires p in a.recruits && a.recruits[p].id == e.unitID && u.id !in a.ids
    requires u.WellFormed() && !u.HasLeg() && u.speed > 0.0 && u.owner == a.recruits[p].owner
    requires u.kind == a.recruits[p].what
    ensures Attainable(a.(recruits := a.recruits - {p}, pending := a.pending - {e}, units := a.units[u.id := u],
        ids := a.ids + {u.id}, delivered := a.delivered + {e.unitID}))
  {
    hide Attainable;
    Goes(a, Deliver(e, p, u));
  }

  /** The match ends. */
  lemma Ends(a: Agenda, r: AppliedEvent, e: Event)
    requires Attainable(a) && a.active && r.kind == MatchEnded && LogOk(a.log + [r], a.seqNo + 1)
    requires e.kind == MatchCleanup && e.unitID == ""
    ensures Attainable(a.(active := false, log := a.log + [r], seqNo := a.seqNo + 1, pending := a.pending + {e}))
  {
    hide Attainable;
    Goes(a, Decide(r, e));
  }

  // ---------- consequences for whole runs ----------

  /** Each unit has at most one pending arrival that will be acted on, and that one is due when
      the unit's current leg ends. */
  lemma OneArrivalEach(a: Agenda, e: Event, o: Event)
    requires Attainable(a) && e in a.pending && o in a.pending
    requires Current(a.units, e) && Current(a.units, o) && e.unitID == o.unitID
    ensures e == o
    ensures a.units[e.unitID].HasLeg() && e.at == a.units[e.unitID].CurrentLeg().arrivesAt
  {
    AttainableIsOk(a);
    assert Punctual(a.units[e.unitID], e);
  }

  /** Between events, a unit that has a leg to complete has its arrival pending if and only if it is
      not stranded, which no unit in flight is; and the arrival then comes when the leg ends. */
  lemma ArrivesUnlessStranded(a: Agenda, id: string)
    requires Attainable(a) && a.busy == {} && id in a.units && a.units[id].HasLeg()
    ensures Awaited(a.units, a.pending, id) <==> id !in a.stranded
    ensures a.units[id].IsMoving(a.clock) ==> id !in a.stranded
    ensures forall e | e in a.pending && Current(a.units, e) && e.unitID == id ::
        e.at == a.units[id].CurrentLeg().arrivesAt
  {
    AttainableIsOk(a);
    if id in a.stranded {
      assert Unawaited(a.units, a.pending, id);
    }
    forall e | e in a.pending && Current(a.units, e) && e.unitID == id
      ensures e.at == a.units[id].CurrentLeg().arrivesAt
    {
      assert Punctual(a.units[id], e);
    }
  }

  /** The agendas that some run leads to in which no order strands a unit. */
  least predicate Smooth(a: Agenda) {
    Initial(a) || exists b, s :: Smooth(b) && Enabled(b, s) && !s.Strand? && a == Do(b, s)
  }

  least lemma SmoothRunsStrandNobody(a: Agenda)
    requires Smooth(a)
    ensures Attainable(a) && a.stranded == {}
  {
    if Initial(a) {
    } else {
      var b, s :| Smooth(b) && Enabled(b, s) && !s.Strand? && a == Do(b, s);
      SmoothRunsStrandNobody(b);
      OnlyStrandingStrands(b, s);
    }
  }

  lemma OnlyStrandingStrands(a: Agenda, s: Step)
    requires Enabled(a, s) && !s.Strand?
    ensures Do(a, s).stranded <= a.stranded
  {
  }

  /** Over a run in which no order strands a unit, every unit that has a leg to complete, whether it
      is still in flight or not, has its arrival pending. */
  lemma NobodyIsStranded(a: Agenda, id: string)
    requires Smooth(a) && a.busy == {} && id in a.units && a.units[id].HasLeg()
    ensures Awaited(a.units, a.pending, id)
  {
    SmoothRunsStrandNobody(a);
    ArrivesUnlessStranded(a, id);
  }

  /** Over a whole run the end of the match is announced at most once and cleaned up at most
      once, and never cleaned up before it is announced. */
  lemma DecidedOnce(a: Agenda)
    requires Attainable(a)
    ensures Count(a.log, MatchEnded) <= 1 && Count(a.log, MatchCleaned) <= Count(a.log, MatchEnded)
    ensures a.active <==> Count(a.log, MatchEnded) == 0
    ensures forall e, o | e in a.pending && o in a.pending && e.kind == MatchCleanup && o.kind == MatchCleanup :: e == o
  {
    AttainableIsOk(a);
  }

  /** Pending recruit orders and recruit completions correspond one to one, and every order ever
      paid for is pending, delivered or refunded, and exactly one of these. */
  lemma OrdersAreConserved(a: Agenda, id: string)
    requires Attainable(a) && id in a.paid
    ensures (id in Queued(a.recruits) <==> exists e :: e in a.pending && e.kind == RecruitComplete && e.unitID == id)
    ensures id in Queued(a.recruits) || id in a.delivered || id in a.refunded
    ensures !(id in a.delivered && id in a.refunded)
    ensures id in Queued(a.recruits) ==> id !in a.delivered && id !in a.refunded
  {
    AttainableIsOk(a);
    if id in Queued(a.recruits) {
      var p :| p in a.recruits && a.recruits[p].id == id;
      assert HasCompletion(a.recruits[p], a.pending, RecruitComplete);
      var e :| Completes(a.recruits[p], e, a.pending, RecruitComplete);
      assert e in a.pending && e.kind == RecruitComplete && e.unitID == id;
    }
    forall e | e in a.pending && e.kind == RecruitComplete && e.unitID == id
      ensures id in Queued(a.recruits)
    {
      assert HasOrder(a.recruits, e);
    }
  }
}
