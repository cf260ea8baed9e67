/** The entities of a match and the invariants that relate them, on values. */
module MatchState {
  import opened Geometry
  import opened StringOrder
  import opened Diplomacy
  import opened Coalitions
  import opened Timelines
  import opened Routes
  import opened Units
  import opened Fights
  import opened Economy

  datatype Province = Province(id: string, pos: Vec, owner: string, capital: bool)

  datatype Building = Building(kind: string, province: string, owner: string)

  /** Queued work: a unit or a building that completes later. */
  datatype Order = Order(id: string, owner: string, province: string, what: string, issuedAt: int, completesAt: int)

  datatype AppliedKind =
    | Arrived | CombatDamage | UnitDestroyed | ProvinceCaptured | MatchEnded | MatchCleaned
    | Pulse | UnitRecruited | BuildingConstructed
    | WarDeclared | PeaceProposed | AllianceProposed | PeaceSigned | AllianceSigned | PactGranted | PactRevoked

  /** What the engine reports after handling an event or a command. */
  datatype AppliedEvent = AppliedEvent(kind: AppliedKind, at: int, seqNo: nat, unitID: string, province: string,
      slot: string)

  type UnitTable = map<string, Unit>
  type ProvinceTable = map<string, Province>
  type OrderTable = map<string, Order>

  // ---------- who and where ----------

  ghost predicate RosterOk(units: UnitTable, provinces: ProvinceTable, players: set<string>) {
    && "" !in players
    && (forall id {:trigger units[id]} | id in units :: units[id].id == id && units[id].owner in players)
    && (forall p {:trigger provinces[p]} | p in provinces ::
          provinces[p].id == p && (provinces[p].owner == "" || provinces[p].owner in players))
  }

  ghost predicate MotionOk(units: UnitTable) {
    forall id {:trigger units[id]} | id in units :: units[id].WellFormed() && units[id].speed > 0.0
  }

  // ---------- arrivals ----------

  /** e is the arrival that the unit is still waiting for. */
  ghost predicate Current(units: UnitTable, e: Event) {
    e.kind == Arrival && e.unitID in units && e.version == units[e.unitID].version
  }

  /** The arrival is not from the future of its unit's commands, and if it is the current one
      the unit has a leg that ends just then. */
  ghost predicate Punctual(u: Unit, e: Event) {
    && e.version <= u.version
    && (e.version == u.version ==> u.HasLeg() && e.at == u.CurrentLeg().arrivesAt)
  }

  ghost predicate ArrivalsOk(units: UnitTable, pending: set<Event>) {
    && (forall e {:trigger Current(units, e)} {:trigger Punctual(units[e.unitID], e)} |
          e in pending && e.kind == Arrival && e.unitID in units :: Punctual(units[e.unitID], e))
    && (forall e, o {:trigger Current(units, e), Current(units, o)} |
          e in pending && o in pending && Current(units, e) && Current(units, o) && e.unitID == o.unitID :: e == o)
  }

  /** Nobody waits for an arrival of this unit. */
  ghost predicate Unawaited(units: UnitTable, pending: set<Event>, id: string) {
    forall e {:trigger Current(units, e)} | e in pending && e.unitID == id :: !Current(units, e)
  }

  /** Some pending arrival will move the unit on. */
  ghost predicate Awaited(units: UnitTable, pending: set<Event>, id: string) {
    exists e {:trigger Current(units, e)} :: e in pending && e.unitID == id && Current(units, e)
  }

  /** Every unit with a leg to complete, except those in `but`, has its arrival pending. */
  ghost predicate Attended(units: UnitTable, pending: set<Event>, but: set<string>) {
    forall id {:trigger units[id]} | id in units && id !in but && units[id].HasLeg() :: Awaited(units, pending, id)
  }

  /** The units in `stranded` that are still there have a leg that has ended. */
  ghost predicate Overdue(units: UnitTable, clock: int, stranded: set<string>) {
    forall id {:trigger units[id]} | id in stranded && id in units ::
      units[id].HasLeg() && units[id].CurrentLeg().arrivesAt <= clock
  }

  /** after holds some of the units of before, changed at most in owner, type and hit points. */
  ghost predicate Trimmed(before: UnitTable, after: UnitTable) {
    && after.Keys <= before.Keys
    && forall id {:trigger after[id]} {:trigger before[id]} | id in after ::
         after[id] == before[id].(owner := after[id].owner, kind := after[id].kind, hp := after[id].hp)
  }

  lemma TrimKeepsArrivals(before: UnitTable, after: UnitTable, pending: set<Event>, but: set<string>)
    requires Trimmed(before, after) && ArrivalsOk(before, pending) && MotionOk(before)
    ensures ArrivalsOk(after, pending) && MotionOk(after)
    ensures Attended(before, pending, but) ==> Attended(after, pending, but)
    ensures forall id :: Unawaited(before, pending, id) ==> Unawaited(after, pending, id)
    ensures forall clock, ids :: Overdue(before, clock, ids) ==> Overdue(after, clock, ids)
  {
    forall e | e in pending && Current(after, e)
      ensures Current(before, e)
    {
      assert after[e.unitID].version == before[e.unitID].version;
    }
    forall e | e in pending && e.kind == Arrival && e.unitID in after
      ensures Punctual(after[e.unitID], e)
    {
      assert Current(before, e) || !Current(before, e);
      assert Punctual(before[e.unitID], e);
    }
    forall id | id in after && id !in but && after[id].HasLeg() && Attended(before, pending, but)
      ensures Awaited(after, pending, id)
    {
      if Awaited(before, pending, id) {
        var e :| e in pending && e.unitID == id && Current(before, e);
        assert Current(after, e);
      }
    }
  }

  /** Taking an event off the queue. */
  lemma PopKeepsArrivals(units: UnitTable, pending: set<Event>, e: Event, but: set<string>)
    requires e in pending && ArrivalsOk(units, pending) && Attended(units, pending, but)
    ensures ArrivalsOk(units, pending - {e})
    ensures Attended(units, pending - {e}, if Current(units, e) then {e.unitID} + but else but)
    ensures Current(units, e) ==> Unawaited(units, pending - {e}, e.unitID)
  {
    var but' := if Current(units, e) then {e.unitID} + but else but;
    forall id | id in units && id !in but' && units[id].HasLeg()
      ensures Awaited(units, pending - {e}, id)
    {
      if Awaited(units, pending, id) {
        var o :| o in pending && o.unitID == id && Current(units, o);
        assert o in pending - {e} && Current(units, o);
      }
    }
  }

  /** An event that is no arrival changes nothing for the units. */
  lemma OtherEventKeepsArrivals(units: UnitTable, pending: set<Event>, e: Event, but: set<string>)
    requires e.kind != Arrival && ArrivalsOk(units, pending)
    ensures ArrivalsOk(units, pending + {e})
    ensures Attended(units, pending, but) ==> Attended(units, pending + {e}, but)
    ensures forall id :: Unawaited(units, pending, id) ==> Unawaited(units, pending + {e}, id)
  {
    forall o | o in pending + {e} && Current(units, o)
      ensures o in pending
    {
    }
    forall id | id in units && id !in but && units[id].HasLeg() && Attended(units, pending, but)
      ensures Awaited(units, pending + {e}, id)
    {
      if Awaited(units, pending, id) {
        var o :| o in pending && o.unitID == id && Current(units, o);
        assert o in pending + {e} && Current(units, o);
      }
    }
  }

  /** Replacing an unawaited unit, at the same or a newer version, by one at the same newer
      version whom still nobody awaits. */
  lemma UpdateKeepsArrivals(units: UnitTable, pending: set<Event>, id: string, u: Unit, but: set<string>)
    requires id in units && ArrivalsOk(units, pending)
    requires u.version > units[id].version || (u.version == units[id].version && Unawaited(units, pending, id))
    ensures ArrivalsOk(units[id := u], pending) && Unawaited(units[id := u], pending, id)
    ensures Attended(units, pending, but) ==> Attended(units[id := u], pending, {id} + but)
    ensures forall o | o != id :: Unawaited(units, pending, o) ==> Unawaited(units[id := u], pending, o)
  {
    var units' := units[id := u];
    forall e | e in pending && e.kind == Arrival && e.unitID in units'
      ensures Punctual(units'[e.unitID], e)
      ensures e.unitID == id ==> !Current(units', e)
      ensures e.unitID != id ==> (Current(units', e) <==> Current(units, e))
    {
      assert Current(units, e) || !Current(units, e);
    }
    forall o | o in units' && o != id && o !in but && units'[o].HasLeg() && Attended(units, pending, but)
      ensures Awaited(units', pending, o)
    {
      assert units'[o] == units[o];
      if Awaited(units, pending, o) {
        var e :| e in pending && e.unitID == o && Current(units, e);
        assert Current(units', e);
      }
    }
  }

  /** Changing only a unit's waypoints. */
  lemma ReplanKeepsArrivals(units: UnitTable, pending: set<Event>, id: string, waypoints: seq<Target>, but: set<string>)
    requires id in units && ArrivalsOk(units, pending) && MotionOk(units)
    ensures var units' := units[id := units[id].(waypoints := waypoints)];
            && ArrivalsOk(units', pending) && MotionOk(units')
            && (Attended(units, pending, but) ==> Attended(units', pending, but))
            && forall o :: Unawaited(units, pending, o) ==> Unawaited(units', pending, o)
  {
    var units' := units[id := units[id].(waypoints := waypoints)];
    forall e | e in pending
      ensures Current(units', e) <==> Current(units, e)
    {
    }
    forall e | e in pending && e.kind == Arrival && e.unitID in units'
      ensures Punctual(units'[e.unitID], e)
    {
      assert Punctual(units[e.unitID], e);
    }
    forall o | o in units' && o !in but && units'[o].HasLeg() && Attended(units, pending, but)
      ensures Awaited(units', pending, o)
    {
      assert units[o].HasLeg();
      if Awaited(units, pending, o) {
        var e :| e in pending && e.unitID == o && Current(units, e);
        assert Current(units', e);
      }
    }
  }

  /** Scheduling the arrival of an unawaited unit at the end of its current leg. */
  lemma ScheduleKeepsArrivals(units: UnitTable, pending: set<Event>, e: Event, but: set<string>)
    requires e.kind == Arrival && e.unitID in units && e.version == units[e.unitID].version
    requires units[e.unitID].HasLeg() && e.at == units[e.unitID].CurrentLeg().arrivesAt
    requires ArrivalsOk(units, pending) && Unawaited(units, pending, e.unitID)
    ensures ArrivalsOk(units, pending + {e})
    ensures Attended(units, pending, {e.unitID} + but) ==> Attended(units, pending + {e}, but)
    ensures forall o | o != e.unitID :: Unawaited(units, pending, o) ==> Unawaited(units, pending + {e}, o)
  {
    assert Current(units, e);
    forall id | id in units && id !in but && units[id].HasLeg() && Attended(units, pending, {e.unitID} + but)
      ensures Awaited(units, pending + {e}, id)
    {
      if id == e.unitID {
        assert e in pending + {e} && Current(units, e);
      } else if Awaited(units, pending, id) {
        var o :| o in pending && o.unitID == id && Current(units, o);
        assert o in pending + {e} && Current(units, o);
      }
    }
  }

  /** A unit without a leg needs no attention. */
  lemma IdleNeedsNoArrival(units: UnitTable, pending: set<Event>, id: string, but: set<string>)
    requires Attended(units, pending, {id} + but)
    requires id in units ==> !units[id].HasLeg()
    ensures Attended(units, pending, but)
  {
  }

  /** A new unit at rest under an id that no event mentions. */
  lemma RecruitKeepsArrivals(units: UnitTable, pending: set<Event>, u: Unit, but: set<string>)
    requires u.id !in units && !u.HasLeg() && forall e | e in pending :: e.unitID != u.id
    requires ArrivalsOk(units, pending) && Attended(units, pending, but)
    ensures ArrivalsOk(units[u.id := u], pending) && Attended(units[u.id := u], pending, but)
    ensures forall o :: Unawaited(units, pending, o) ==> Unawaited(units[u.id := u], pending, o)
  {
    var units' := units[u.id := u];
    forall e | e in pending
      ensures Current(units', e) <==> Current(units, e)
      ensures e.kind == Arrival && e.unitID in units' ==> Punctual(units'[e.unitID], e)
    {
      assert Current(units, e) || !Current(units, e);
    }
    forall o | o in units' && o !in but && units'[o].HasLeg()
      ensures Awaited(units', pending, o)
    {
      assert units'[o] == units[o];
      if Awaited(units, pending, o) {
        var e :| e in pending && e.unitID == o && Current(units, e);
        assert Current(units', e);
      }
    }
  }

  // ---------- orders ----------

  /** The orders in `orders` and the pending completions of this kind correspond one to one. */
  ghost predicate Booked(orders: OrderTable, pending: set<Event>, kind: EventKind) {
    && Filed(orders)
    && (forall p {:trigger HasCompletion(orders[p], pending, kind)} | p in orders ::
          HasCompletion(orders[p], pending, kind))
    && (forall e {:trigger HasOrder(orders, e)} | e in pending && e.kind == kind :: HasOrder(orders, e))
    && Unrepeated(pending, kind)
  }

  /** Orders are kept under their province and have ids of their own. */
  ghost predicate Filed(orders: OrderTable) {
    && (forall p {:trigger orders[p]} | p in orders :: orders[p].province == p)
    && (forall p, q {:trigger orders[p], orders[q]} | p in orders && q in orders && orders[p].id == orders[q].id ::
          p == q)
  }

  ghost predicate Completes(order: Order, e: Event, pending: set<Event>, kind: EventKind) {
    e in pending && e.kind == kind && e.unitID == order.id && e.at == order.completesAt
  }

  ghost predicate HasCompletion(order: Order, pending: set<Event>, kind: EventKind) {
    exists e :: Completes(order, e, pending, kind)
  }

  ghost predicate HasOrder(orders: OrderTable, e: Event) {
    exists p :: p in orders && orders[p].id == e.unitID
  }

  ghost predicate Unrepeated(pending: set<Event>, kind: EventKind) {
    forall e, o {:trigger e.kind, o.kind} |
      e in pending && o in pending && e.kind == kind && o.kind == kind && e.unitID == o.unitID :: e == o
  }

  /** Filing a new order together with its completion. */
  lemma BookKeepsBooked(orders: OrderTable, pending: set<Event>, kind: EventKind, order: Order, e: Event)
    requires Booked(orders, pending, kind) && order.province !in orders
    requires e.kind == kind && e.unitID == order.id && e.at == order.completesAt && e !in pending
    requires order.id !in Queued(orders)
    ensures Booked(orders[order.province := order], pending + {e}, kind)
  {
    var orders', pending' := orders[order.province := order], pending + {e};
    forall p | p in orders
      ensures orders[p].id != order.id
    {
      assert orders[p].id in Queued(orders);
    }
    forall p | p in orders'
      ensures HasCompletion(orders'[p], pending', kind)
    {
      if p == order.province {
        assert Completes(order, e, pending', kind);
      } else {
        assert HasCompletion(orders[p], pending, kind);
        var o :| Completes(orders[p], o, pending, kind);
        assert Completes(orders'[p], o, pending', kind);
      }
    }
    assert orders'[order.province].id == e.unitID;
    forall o | o in pending && o.kind == kind
      ensures HasOrder(orders', o) && o.unitID != e.unitID
    {
      assert HasOrder(orders, o);
      var p :| p in orders && orders[p].id == o.unitID;
      assert orders'[p].id == o.unitID;
    }
  }

  /** Taking a completion off the queue together with the order it completes. */
  lemma SettleKeepsBooked(orders: OrderTable, pending: set<Event>, kind: EventKind, e: Event, p: string)
    requires Booked(orders, pending, kind) && e in pending && e.kind == kind && p in orders && orders[p].id == e.unitID
    ensures Booked(orders - {p}, pending - {e}, kind)
  {
    var orders', pending' := orders - {p}, pending - {e};
    forall q | q in orders'
      ensures HasCompletion(orders'[q], pending', kind)
    {
      assert HasCompletion(orders[q], pending, kind);
      var o :| Completes(orders[q], o, pending, kind);
      assert orders[q].id != orders[p].id;
      assert Completes(orders'[q], o, pending', kind);
    }
    forall o | o in pending' && o.kind == kind
      ensures HasOrder(orders', o)
    {
      assert HasOrder(orders, o);
      var q :| q in orders && orders[q].id == o.unitID;
      assert q != p;
      assert orders'[q].id == o.unitID;
    }
  }

  /** Events of other kinds come and go without touching the orders. */
  lemma OtherEventKeepsBooked(orders: OrderTable, pending: set<Event>, pending': set<Event>, kind: EventKind)
    requires Booked(orders, pending, kind)
    requires forall e: Event {:trigger e.kind} | e.kind == kind :: e in pending <==> e in pending'
    ensures Booked(orders, pending', kind)
  {
    forall q | q in orders
      ensures HasCompletion(orders[q], pending', kind)
    {
      assert HasCompletion(orders[q], pending, kind);
      var o :| Completes(orders[q], o, pending, kind);
      assert Completes(orders[q], o, pending', kind);
    }
    forall o | o in pending' && o.kind == kind
      ensures HasOrder(orders, o)
    {
      assert o in pending;
    }
  }

  /** The ids of the orders still queued. */
  ghost function Queued(orders: OrderTable): set<string> {
    set p | p in orders :: orders[p].id
  }

  // ---------- the log ----------

  ghost function Count(log: seq<AppliedEvent>, kind: AppliedKind): nat {
    if log == [] then 0 else Count(log[..|log| - 1], kind) + (if log[|log| - 1].kind == kind then 1 else 0)
  }

  lemma CountOneMore(log: seq<AppliedEvent>, e: AppliedEvent, kind: AppliedKind)
    ensures Count(log + [e], kind) == Count(log, kind) + (if e.kind == kind then 1 else 0)
  {
    assert (log + [e])[..|log|] == log;
  }

  /** The units reported destroyed. */
  ghost function Destroyed(log: seq<AppliedEvent>): set<string> {
    set i | 0 <= i < |log| && log[i].kind == UnitDestroyed :: log[i].unitID
  }

  lemma DestroyedJoins(a: seq<AppliedEvent>, b: seq<AppliedEvent>)
    ensures Destroyed(a + b) == Destroyed(a) + Destroyed(b)
  {
    var c := a + b;
    assert forall i | 0 <= i < |a| :: c[i] == a[i];
    assert forall i | 0 <= i < |b| :: c[|a| + i] == b[i];
    assert Destroyed(a) <= Destroyed(c) && Destroyed(b) <= Destroyed(c);
  }

  /** Reports are numbered consecutively from 1. */
  ghost predicate LogOk(log: seq<AppliedEvent>, seqNo: nat) {
    seqNo == |log| && forall i {:trigger log[i]} | 0 <= i < |log| :: log[i].seqNo == i + 1
  }

  /** Reports that all carry time `at` and do not concern the ending of the match. */
  ghost predicate Quiet(out: seq<AppliedEvent>, at: int) {
    forall i {:trigger out[i]} | 0 <= i < |out| ::
        out[i].at == at && out[i].kind != MatchEnded && out[i].kind != MatchCleaned
  }

  /** Appending quiet reports to a log. */
  lemma QuietJoins(log: seq<AppliedEvent>, a: seq<AppliedEvent>, b: seq<AppliedEvent>, at: int)
    ensures (log + a) + b == log + (a + b)
    ensures Quiet(a, at) && Quiet(b, at) ==> Quiet(a + b, at)
  {
  }

  lemma {:induction false} CountJoins(a: seq<AppliedEvent>, b: seq<AppliedEvent>, kind: AppliedKind)
    ensures Count(a + b, kind) == Count(a, kind) + Count(b, kind)
    decreases |b|
  {
    if b == [] {
      assert a + b == a;
    } else {
      var n := |b| - 1;
      assert (a + b)[..|a + b| - 1] == a + b[..n];
      CountJoins(a, b[..n], kind);
    }
  }

  lemma {:induction false} QuietCountsNothing(out: seq<AppliedEvent>, at: int)
    requires Quiet(out, at)
    ensures Count(out, MatchEnded) == 0 && Count(out, MatchCleaned) == 0
    decreases |out|
  {
    if out == [] {
    } else {
      QuietCountsNothing(out[..|out| - 1], at);
    }
  }

  /** The end of the match is announced once, and cleaned up once, five minutes later. */
  ghost predicate EndingOk(active: bool, cleanupDone: bool, pending: set<Event>, log: seq<AppliedEvent>) {
    && Count(log, MatchEnded) == (if active then 0 else 1)
    && Count(log, MatchCleaned) == (if cleanupDone then 1 else 0)
    && (active ==> !cleanupDone)
    && (active || cleanupDone ==> forall e | e in pending :: e.kind != MatchCleanup)
    && (!active && !cleanupDone ==> exists e :: OnlyCleanup(pending, e))
  }

  ghost predicate OnlyCleanup(pending: set<Event>, e: Event) {
    e in pending && e.kind == MatchCleanup && forall o | o in pending && o.kind == MatchCleanup :: o == e
  }

  lemma OtherEventKeepsEnding(active: bool, cleanupDone: bool, pending: set<Event>, pending': set<Event>,
      log: seq<AppliedEvent>)
    requires EndingOk(active, cleanupDone, pending, log)
    requires forall e: Event {:trigger e.kind} | e.kind == MatchCleanup :: e in pending <==> e in pending'
    ensures EndingOk(active, cleanupDone, pending', log)
  {
    if !active && !cleanupDone {
      var e :| OnlyCleanup(pending, e);
      assert OnlyCleanup(pending', e);
    }
  }

  // ---------- territory ----------

  /** The owner of a province; "" when it is neutral or unknown. */
  function OwnerOf(provinces: ProvinceTable, p: string): string {
    if p in provinces then provinces[p].owner else ""
  }

  /** The leg ends in territory of a slot that the mover is at war with. */
  predicate HostileEnd(l: Ledger, provinces: ProvinceTable, mover: string, p: string) {
    var owner := OwnerOf(provinces, p);
    owner != "" && owner != mover && l.Stance(mover, owner) == War
  }

  /** The leg ends in territory that the mover may neither cross nor attack. */
  predicate LegBlocked(l: Ledger, provinces: ProvinceTable, mover: string, p: string) {
    var owner := OwnerOf(provinces, p);
    owner != "" && owner != mover && !l.MayMoveThrough(mover, owner) && l.Stance(mover, owner) != War
  }

  /** The owners of capitals. */
  ghost function CapitalOwners(provinces: ProvinceTable): set<string> {
    set p | p in provinces && provinces[p].capital && provinces[p].owner != "" :: provinces[p].owner
  }

  /** All slots of s belong to one coalition. */
  ghost predicate OneCoalition(l: Ledger, all: set<string>, s: set<string>) {
    forall a, b {:trigger CoalId(l, all, a), CoalId(l, all, b)} | a in s && b in s ::
        CoalId(l, all, a) == CoalId(l, all, b)
  }

  // ---------- combat ----------

  /** The live units at rest in province p. */
  ghost function Garrison(units: UnitTable, p: string, at: int): set<string> {
    set id | id in units && units[id].origin == units[id].dest == p && !units[id].IsMoving(at) && units[id].hp > 0.0
  }

  /** The coalition id of every slot of the match. */
  ghost function Coals(l: Ledger, all: set<string>): map<string, string> {
    map o | o in all :: CoalId(l, all, o)
  }

  /** The members of s whose owner belongs to coalition k. */
  ghost function Side(coal: map<string, string>, units: UnitTable, s: set<string>, k: string): (side: set<string>)
    ensures side <= s
  {
    set id | id in s && id in units && units[id].owner in coal && coal[units[id].owner] == k
  }

  ghost function HpTotal(units: UnitTable, s: set<string>): real
    requires s <= units.Keys
  {
    if s == {} then 0.0 else
      var id :| id in s;
      units[id].hp + HpTotal(units, s - {id})
  }

  lemma {:induction false} HpTotalWithout(units: UnitTable, s: set<string>, id: string)
    requires s <= units.Keys && id in s
    ensures HpTotal(units, s) == units[id].hp + HpTotal(units, s - {id})
    decreases s
  {
    var z :| z in s && HpTotal(units, s) == units[z].hp + HpTotal(units, s - {z});
    if z == id {
    } else {
      HpTotalWithout(units, s - {z}, id);
      assert s - {z} - {id} == s - {id} - {z};
      HpTotalWithout(units, s - {id}, z);
    }
  }

  /** The champions as the fight sees them. */
  ghost function ArenaOf(units: UnitTable, champions: map<string, string>): Arena {
    map k | k in champions && champions[k] in units ::
      Champion(units[champions[k]].owner, units[champions[k]].kind, units[champions[k]].hp)
  }

  ghost predicate Distinct(champions: map<string, string>) {
    forall j, k {:trigger champions[j], champions[k]} |
      j in champions && k in champions && champions[j] == champions[k] :: j == k
  }

  /** No two slots are allied. */
  ghost predicate NoAlliances(l: Ledger, all: set<string>) {
    forall a, b | a in all && b in all :: !Allied(l, a, b)
  }

  lemma WithoutAlliancesEachIsAlone(l: Ledger, all: set<string>, slot: string)
    requires NoAlliances(l, all) && slot in all
    ensures Component(l, all, slot) == {slot} && CoalId(l, all, slot) == slot
  {
    LinkedToSelf(l, all, slot);
    assert Heard(l, all, {slot}, slot);
    ClosedIsComponent(l, all, {slot}, slot);
    CoalIdIsLeast(l, all, slot);
  }
}
