/** The books of a match: what orders cost and come to, and what a pulse brings, resource by resource. */
module Accounts {
  import opened Clock
  import opened StringOrder
  import opened Diplomacy
  import opened Timelines
  import opened Units
  import opened Economy
  import opened MatchState
  import opened Agendas
  import opened Revenues
  import opened Chronicles
  import opened Histories
  import opened Commands
  import opened Aftermaths

  // ---------- what is ordered ----------

  ghost predicate FactoryIn(buildings: seq<Building>, p: string) {
    exists i :: 0 <= i < |buildings| && buildings[i].kind == "factory" && buildings[i].province == p
  }

  /** The slot has at least this much of everything. */
  predicate Covers(banks: map<string, Resources>, slot: string, cost: Resources) {
    && slot in banks && banks[slot].manpower >= cost.manpower && banks[slot].food >= cost.food
    && banks[slot].iron >= cost.iron
  }

  /** Who may recruit what where, and what is said to whoever may not: the slot must own the province, the type
      must exist, armor needs a factory in the province, no other unit may be in training there, and every
      resource must suffice. */
  lemma RecruitingIsAllowedIff(s: Snapshot, issuer: string, from: string, what: string, reply: Reply, t: Snapshot)
    requires RecruitHandled(s, issuer, from, what, reply, t)
    ensures var mine := from in s.a.provinces && s.a.provinces[from].owner == issuer;
            var known := what in {"infantry", "cavalry", "armor"};
            var equipped := what == "armor" ==> FactoryIn(s.buildings, from);
            var free := from !in s.a.recruits;
            var pays := Covers(s.banks, issuer, UnitPrice(what));
            && (reply == BadProvince <==> from !in s.a.provinces)
            && (reply == Unauthorized <==> from in s.a.provinces && !mine)
            && (reply == BadType <==> mine && !known)
            && (reply == NeedsFactory <==> mine && known && !equipped)
            && (reply == Occupied <==> mine && known && equipped && !free)
            && (reply == NoFunds <==> mine && known && equipped && free && !pays)
            && (reply == Accepted <==> mine && known && equipped && free && pays)
  {
    hide Posted, Charged;
    assert FactoryIn(s.buildings, from) <==> Hosts(s.buildings, from, "factory");
  }

  /** The same for buildings, of which there is one kind, and one of a kind in a province. */
  lemma ConstructingIsAllowedIff(s: Snapshot, issuer: string, from: string, what: string, reply: Reply, t: Snapshot)
    requires ConstructHandled(s, issuer, from, what, reply, t)
    ensures var mine := from in s.a.provinces && s.a.provinces[from].owner == issuer;
            var known := what == "factory";
            var built := FactoryIn(s.buildings, from);
            var free := from !in s.a.builds;
            var pays := Covers(s.banks, issuer, BuildingPrice(what));
            && (reply == BadProvince <==> from !in s.a.provinces)
            && (reply == Unauthorized <==> from in s.a.provinces && !mine)
            && (reply == BadType <==> mine && !known)
            && (reply == AlreadyBuilt <==> mine && known && built)
            && (reply == Occupied <==> mine && known && !built && !free)
            && (reply == NoFunds <==> mine && known && !built && free && !pays)
            && (reply == Accepted <==> mine && known && !built && free && pays)
  {
    hide Posted, Charged;
    assert FactoryIn(s.buildings, from) <==> Hosts(s.buildings, from, "factory");
  }

  /** Of every resource, what the slot has less of is the price; and nobody else has less, or more. */
  ghost predicate PaidBy(before: map<string, Resources>, after: map<string, Resources>, slot: string, price: Resources)
  {
    && slot in before && after.Keys == before.Keys
    && before[slot].manpower - after[slot].manpower == price.manpower
    && before[slot].food - after[slot].food == price.food
    && before[slot].iron - after[slot].iron == price.iron
    && forall o | o in before && o != slot :: after[o] == before[o]
  }

  /** The order in the books is the slot's own, and it is completed at this time. */
  ghost predicate DueAt(orders: map<string, Order>, pending: set<Event>, from: string, owner: string, what: string,
                        e: Event, at: int)
  {
    && from in orders && orders[from].owner == owner && orders[from].what == what
    && e in pending && e.unitID == orders[from].id && e.at == at
  }

  /** An accepted order is paid in full by the slot that gave it, which stays out of debt. */
  lemma OrdersArePaid(s: Snapshot, issuer: string, from: string, what: string, t: Snapshot)
    requires RecruitHandled(s, issuer, from, what, Accepted, t)
    ensures PaidBy(s.banks, t.banks, issuer, UnitPrice(what)) && t.banks[issuer].NonNegative()
  {
    hide Posted, RecruitVerdict;
    MayRecruit(s.a.provinces, s.buildings, s.a.recruits, s.banks, issuer, from, what);
  }

  lemma BuildingsArePaid(s: Snapshot, issuer: string, from: string, what: string, t: Snapshot)
    requires ConstructHandled(s, issuer, from, what, Accepted, t)
    ensures PaidBy(s.banks, t.banks, issuer, BuildingPrice(what)) && t.banks[issuer].NonNegative()
  {
    hide Posted, ConstructVerdict;
    MayConstruct(s.a.provinces, s.buildings, s.a.builds, s.banks, issuer, from, what);
  }

  lemma CompletionsAreQueued(a: Agenda, from: string) returns (e: Event)
    requires Attainable(a) && from in a.recruits
    ensures Completes(a.recruits[from], e, a.pending, RecruitComplete)
  {
    hide Attainable, TravelOk, EndingOk;
    AttainableIsOk(a);
    assert HasCompletion(a.recruits[from], a.pending, RecruitComplete);
    e :| Completes(a.recruits[from], e, a.pending, RecruitComplete);
  }

  lemma BuildCompletionsAreQueued(a: Agenda, from: string) returns (e: Event)
    requires Attainable(a) && from in a.builds
    ensures Completes(a.builds[from], e, a.pending, ConstructComplete)
  {
    hide Attainable, TravelOk, EndingOk;
    AttainableIsOk(a);
    assert HasCompletion(a.builds[from], a.pending, ConstructComplete);
    e :| Completes(a.builds[from], e, a.pending, ConstructComplete);
  }

  /** And it is due after the time that its kind takes. */
  lemma OrdersAreDue(s: Snapshot, issuer: string, from: string, what: string, t: Snapshot) returns (e: Event)
    requires RecruitHandled(s, issuer, from, what, Accepted, t) && Attainable(t.a)
    ensures e.kind == RecruitComplete
    ensures var minutes := if what == "infantry" then 5 else if what == "cavalry" then 10 else 20;
            DueAt(t.a.recruits, t.a.pending, from, issuer, what, e, s.a.clock + minutes * MINUTE)
  {
    hide Posted, Attainable, RecruitVerdict, Charged;
    MayRecruit(s.a.provinces, s.buildings, s.a.recruits, s.banks, issuer, from, what);
    e := CompletionsAreQueued(t.a, from);
  }

  lemma BuildingsAreDue(s: Snapshot, issuer: string, from: string, what: string, t: Snapshot) returns (e: Event)
    requires ConstructHandled(s, issuer, from, what, Accepted, t) && Attainable(t.a)
    ensures e.kind == ConstructComplete
    ensures DueAt(t.a.builds, t.a.pending, from, issuer, what, e, s.a.clock + 30 * MINUTE)
  {
    hide Posted, Attainable, ConstructVerdict, Charged;
    MayConstruct(s.a.provinces, s.buildings, s.a.builds, s.banks, issuer, from, what);
    e := BuildCompletionsAreQueued(t.a, from);
  }

  // ---------- what becomes of it ----------

  /** The slot has gained this much of everything, and nobody else anything. */
  ghost predicate Gains(before: map<string, Resources>, after: map<string, Resources>, slot: string, m: real, f: real,
                        i: real)
  {
    && slot in before && after.Keys == before.Keys
    && after[slot] == Resources(before[slot].manpower + m, before[slot].food + f, before[slot].iron + i)
    && forall o | o in before && o != slot :: after[o] == before[o]
  }

  /** An order, from its payment to its refund: what its owner gets back is, taken twice, what the order has cost,
      of every resource; and it is refunded exactly if its owner has lost the province by then. */
  lemma TwiceTheRefundIsThePrice(s: Snapshot, issuer: string, from: string, what: string, t: Snapshot, u: Snapshot,
                                 e: Event, v: Snapshot, order: Order, id: string) returns (m: real, f: real, i: real)
    requires RecruitHandled(s, issuer, from, what, Accepted, t) && from in t.a.recruits && t.a.recruits[from] == order
    requires RecruitSettled(u, e, v, order, id) && issuer != ""
    ensures var lost := from !in u.a.provinces || u.a.provinces[from].owner != issuer;
            && (lost ==>
                  && issuer in s.banks && issuer in t.banks && v.a.units == u.a.units
                  && Gains(u.banks, v.banks, issuer, m, f, i)
                  && 2.0 * m == s.banks[issuer].manpower - t.banks[issuer].manpower
                  && 2.0 * f == s.banks[issuer].food - t.banks[issuer].food
                  && 2.0 * i == s.banks[issuer].iron - t.banks[issuer].iron)
            && (!lost ==> v.banks == u.banks && v.a.units.Keys > u.a.units.Keys)
  {
    hide Posted, RecruitVerdict;
    MayRecruit(s.a.provinces, s.buildings, s.a.recruits, s.banks, issuer, from, what);
    var half := UnitPrice(what).Halved();
    m, f, i := half.manpower, half.food, half.iron;
    if from in u.a.provinces && u.a.provinces[from].owner == issuer {
      assert id in v.a.units && id !in u.a.units;
    }
  }

  /** Two refunds of a kind pay for exactly one new order of that kind: a slot that had nothing has what the order
      costs, and after it nothing again. */
  lemma TwoRefundsPayForOne(a: Snapshot, e: Event, b: Snapshot, order: Order, id: string, f: Event, c: Snapshot,
                            order': Order, id': string, issuer: string, from: string, t: Snapshot)
    requires RecruitSettled(a, e, b, order, id) && !StillHolds(a.a.provinces, order)
    requires RecruitSettled(b, f, c, order', id') && !StillHolds(b.a.provinces, order')
    requires order.owner == order'.owner == issuer && order.what == order'.what && issuer != ""
    requires issuer in a.banks && a.banks[issuer] == NOTHING
    requires RecruitHandled(c, issuer, from, order.what, Accepted, t)
    ensures Covers(c.banks, issuer, UnitPrice(order.what)) && issuer in t.banks && t.banks[issuer] == NOTHING
  {
    hide Posted, RecruitVerdict, StillHolds;
    MayRecruit(c.a.provinces, c.buildings, c.a.recruits, c.banks, issuer, from, order.what);
  }

  /** A recruit order whose owner still holds the province has become a unit: a new one, at full strength, of the
      type ordered, at rest in the middle of the province and ready to fight; nobody else is touched. */
  lemma RecruitsStandReady(s: Snapshot, e: Event, t: Snapshot, order: Order, id: string, later: int)
    requires RecruitSettled(s, e, t, order, id) && order.owner != "" && order.province in s.a.provinces
    requires s.a.provinces[order.province].owner == order.owner
    requires s.a.provinces[order.province].id == order.province
    ensures id !in s.a.units && id in t.a.units && t.a.units - {id} == s.a.units
    ensures var u := t.a.units[id];
            && u.id == id && u.owner == order.owner && u.kind == order.what && StandsIn(u, order.province, e.at)
            && u.hp == (if order.what == "infantry" then 100.0 else if order.what == "cavalry" then 80.0 else 140.0)
            && u.PositionAt(later) == s.a.provinces[order.province].pos && u.WellFormed() && u.waypoints == []
  {
  }

  /** A building whose owner still holds the province stands, so that armor can be recruited there. */
  lemma FactoriesStand(s: Snapshot, e: Event, t: Snapshot, order: Order)
    requires BuildSettled(s, e, t, order) && order.owner != "" && order.what == "factory"
    ensures FactoryIn(t.buildings, order.province) <==>
            || FactoryIn(s.buildings, order.province)
            || (order.province in s.a.provinces && s.a.provinces[order.province].owner == order.owner)
    ensures forall p | p != order.province :: FactoryIn(t.buildings, p) <==> FactoryIn(s.buildings, p)
  {
    var n := |s.buildings|;
    forall p
      ensures FactoryIn(t.buildings, p) <==> FactoryIn(s.buildings, p) || (|t.buildings| > n && p == order.province)
    {
      if |t.buildings| > n {
        assert t.buildings[n] == Building(order.what, order.province, order.owner);
      }
      if FactoryIn(s.buildings, p) {
        var k :| 0 <= k < n && s.buildings[k].kind == "factory" && s.buildings[k].province == p;
        assert t.buildings[k] == s.buildings[k];
      }
      if FactoryIn(t.buildings, p) && !FactoryIn(s.buildings, p) {
        var k :| 0 <= k < |t.buildings| && t.buildings[k].kind == "factory" && t.buildings[k].province == p;
        assert k == n;
      }
    }
  }

  // ---------- what a pulse brings ----------

  /** The factories of a slot. */
  ghost function Factories(buildings: seq<Building>, slot: string): nat {
    if buildings == [] then 0 else
      var b := buildings[|buildings| - 1];
      Factories(buildings[..|buildings| - 1], slot) + (if b.kind == "factory" && b.owner == slot then 1 else 0)
  }

  lemma {:induction false} FactoriesProduce(buildings: seq<Building>, slot: string)
    ensures var n := Factories(buildings, slot) as real;
            Output(buildings, slot) == Resources(2.0 * n, 0.0, 4.0 * n)
    decreases |buildings|
  {
    if buildings == [] {
    } else {
      FactoriesProduce(buildings[..|buildings| - 1], slot);
    }
  }

  /** At a pulse every slot gains 4 manpower, 5 food and 1 iron for each of its provinces, and 2 manpower and 4
      iron for each of its factories. */
  lemma PulsesPay(s: Snapshot, e: Event, t: Snapshot, slot: string)
    requires PulsePaid(s, e, t) && slot in s.banks
    ensures var n, k := |set p | p in s.a.provinces && s.a.provinces[p].owner == slot| as real,
                Factories(s.buildings, slot) as real;
            && slot in t.banks
            && t.banks[slot].manpower == s.banks[slot].manpower + 4.0 * n + 2.0 * k
            && t.banks[slot].food == s.banks[slot].food + 5.0 * n
            && t.banks[slot].iron == s.banks[slot].iron + n + 4.0 * k
  {
    hide Pulsed, NextPulse;
    FactoriesProduce(s.buildings, slot);
    assert Owned(s.a.provinces, slot) == set p | p in s.a.provinces && s.a.provinces[p].owner == slot;
  }
}
