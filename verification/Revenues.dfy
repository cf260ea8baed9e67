/** What the slots earn and what their orders turn into. */
module Revenues {
  import opened StringOrder
  import opened Timelines
  import opened Units
  import opened Economy
  import opened MatchState

  /** n shares of r. */
  function Shares(r: Resources, n: nat): Resources {
    Resources(n as real * r.manpower, n as real * r.food, n as real * r.iron)
  }

  ghost function Owned(provinces: ProvinceTable, slot: string): set<string> {
    set p | p in provinces && provinces[p].owner == slot
  }

  /** What the slot's buildings produce. */
  ghost function Output(buildings: seq<Building>, slot: string): (r: Resources)
    ensures r.NonNegative()
  {
    if buildings == [] then NOTHING else
      var b := buildings[|buildings| - 1];
      Output(buildings[..|buildings| - 1], slot).Plus(Yield(b, slot))
  }

  /** What one building produces for the slot. */
  function Yield(b: Building, slot: string): (r: Resources)
    ensures r.NonNegative()
  {
    if b.owner != slot || BuildingKindOf(b.kind).Unknown? then NOTHING else BuildingKindOf(b.kind).value.production
  }

  /** A pulse brings the slot one share per province it owns and the output of its buildings. */
  ghost function Revenue(provinces: ProvinceTable, buildings: seq<Building>, slot: string): (r: Resources)
    ensures r.NonNegative()
  {
    SharesAreNonNegative(|Owned(provinces, slot)|);
    Shares(PROVINCE_REVENUE, |Owned(provinces, slot)|).Plus(Output(buildings, slot))
  }

  lemma SharesAreNonNegative(n: nat)
    ensures Shares(PROVINCE_REVENUE, n).NonNegative()
  {
  }

  lemma PlusReassociates(a: Resources, b: Resources, c: Resources)
    ensures a.Plus(b).Plus(c) == a.Plus(b.Plus(c)) && a.Plus(NOTHING) == a
  {
  }

  lemma OneMoreShare(r: Resources, n: nat)
    ensures Shares(r, n + 1) == Shares(r, n).Plus(r) && Shares(r, 0) == NOTHING
  {
  }

  /** Looking at one more province. */
  lemma OneMoreProvince(provinces: ProvinceTable, slot: string, rest: set<string>, p: string)
    requires p in rest && rest <= provinces.Keys
    ensures var owned := Owned(provinces, slot);
            && |owned - (rest - {p})| == |owned - rest| + (if provinces[p].owner == slot then 1 else 0)
  {
    var owned := Owned(provinces, slot);
    if provinces[p].owner == slot {
      assert owned - (rest - {p}) == (owned - rest) + {p};
    } else {
      assert owned - (rest - {p}) == owned - rest;
    }
  }

  /** macroPulseRevenue, its loop over the provinces. */
  method ProvinceShares(provinces: ProvinceTable, slot: string) returns (out: Resources)
    ensures out == Shares(PROVINCE_REVENUE, |Owned(provinces, slot)|)
  {
    hide Shares, Resources.Plus;
    out := NOTHING;
    var rest := provinces.Keys;
    OneMoreShare(PROVINCE_REVENUE, 0);
    assert Owned(provinces, slot) - rest == {};
    while rest != {}
      invariant rest <= provinces.Keys && out == Shares(PROVINCE_REVENUE, |Owned(provinces, slot) - rest|)
      decreases rest
    {
      var p :| p in rest;
      OneMoreProvince(provinces, slot, rest, p);
      OneMoreShare(PROVINCE_REVENUE, |Owned(provinces, slot) - rest|);
      rest := rest - {p};
      if provinces[p].owner == slot {
        out := out.Plus(PROVINCE_REVENUE);
      }
    }
    assert Owned(provinces, slot) - rest == Owned(provinces, slot);
  }

  /** macroPulseRevenue, with its loop over the buildings. */
  method MacroPulseRevenue(provinces: ProvinceTable, buildings: seq<Building>, slot: string) returns (out: Resources)
    ensures out == Revenue(provinces, buildings, slot)
  {
    hide Shares, Resources.Plus, Owned;
    out := ProvinceShares(provinces, slot);
    ghost var share := out;
    PlusReassociates(share, NOTHING, NOTHING);
    for i := 0 to |buildings|
      invariant out == share.Plus(Output(buildings[..i], slot))
    {
      assert buildings[..i + 1][..i] == buildings[..i];
      PlusReassociates(share, Output(buildings[..i], slot), Yield(buildings[i], slot));
      PlusReassociates(out, NOTHING, NOTHING);
      if buildings[i].owner == slot {
        var kind := BuildingKindOf(buildings[i].kind);
        if kind.Known? {
          out := out.Plus(kind.value.production);
        }
      }
    }
    assert buildings[..|buildings|] == buildings;
  }

  /** Every slot but those in `rest` has been paid its revenue. */
  ghost predicate Paid(before: map<string, Resources>, after: map<string, Resources>, provinces: ProvinceTable,
                       buildings: seq<Building>, rest: set<string>)
  {
    && after.Keys == before.Keys
    && forall s {:trigger after[s]} | s in after ::
         after[s] == if s in rest then before[s] else before[s].Plus(Revenue(provinces, buildings, s))
  }

  lemma PaidNobody(banks: map<string, Resources>, provinces: ProvinceTable, buildings: seq<Building>)
    ensures Paid(banks, banks, provinces, buildings, banks.Keys)
  {
  }

  lemma PaidOneMore(before: map<string, Resources>, banks: map<string, Resources>, provinces: ProvinceTable,
                    buildings: seq<Building>, rest: set<string>, slot: string)
    requires Paid(before, banks, provinces, buildings, rest) && slot in rest && slot in banks
    ensures Paid(before, banks[slot := banks[slot].Plus(Revenue(provinces, buildings, slot))], provinces, buildings,
        rest - {slot})
  {
  }

  /** The slots named in the reports since `before`. */
  ghost function Named(before: seq<AppliedEvent>, after: seq<AppliedEvent>): set<string>
    requires before <= after
  {
    set i | |before| <= i < |after| :: after[i].slot
  }

  /** Since `before`, each of these slots has been reported paid exactly once, and nothing else has
      been reported. */
  ghost predicate Pulsed(before: seq<AppliedEvent>, after: seq<AppliedEvent>, at: int, slots: set<string>) {
    && before <= after && |after| == |before| + |slots| && Named(before, after) == slots
    && forall i {:trigger after[i]} | |before| <= i < |after| :: after[i].kind == Pulse && after[i].at == at
  }

  lemma NamedOneMore(before: seq<AppliedEvent>, after: seq<AppliedEvent>, r: AppliedEvent)
    requires before <= after
    ensures Named(before, after + [r]) == Named(before, after) + {r.slot}
  {
    var more := after + [r];
    forall i | |before| <= i < |after|
      ensures more[i].slot in Named(before, after)
    {
      assert more[i] == after[i];
    }
    forall i | |before| <= i < |after|
      ensures after[i].slot in Named(before, more)
    {
      assert more[i] == after[i];
    }
    assert more[|after|].slot in Named(before, more);
  }

  lemma PulsedOneMore(before: seq<AppliedEvent>, after: seq<AppliedEvent>, at: int, slots: set<string>, r: AppliedEvent)
    requires Pulsed(before, after, at, slots) && r.kind == Pulse && r.at == at && r.slot !in slots
    ensures Pulsed(before, after + [r], at, slots + {r.slot})
  {
    hide Named;
    NamedOneMore(before, after, r);
    assert forall i | 0 <= i < |after| :: (after + [r])[i] == after[i];
  }

  lemma PulsedNobody(log: seq<AppliedEvent>, at: int)
    ensures Pulsed(log, log, at, {})
  {
  }

  /** The order with a given id, if there is one. */
  method FindOrder(orders: OrderTable, id: string) returns (found: bool, key: string)
    ensures found ==> key in orders && orders[key].id == id
    ensures !found ==> forall p | p in orders :: orders[p].id != id
  {
    found, key := false, "";
    var rest := orders.Keys;
    while rest != {}
      invariant rest <= orders.Keys && forall p | p in orders && p !in rest :: orders[p].id != id
      decreases rest
    {
      var p :| p in rest;
      if orders[p].id == id {
        return true, p;
      }
      rest := rest - {p};
    }
  }

  /** The unit that a recruit order turns into, at rest in its province. */
  function Recruited(order: Order, kind: Kind, province: Province, id: string, at: int): Unit {
    Unit(id, order.owner, order.what, kind.startingHP, province.id, province.id, at, at, province.pos, province.pos,
         kind.speed, 1, [], 0, [])
  }

  /** The order has become a new unit. */
  ghost predicate BecameUnit(order: Order, provinces: ProvinceTable, before: UnitTable, after: UnitTable, id: string,
      at: int)
  {
    && order.province in provinces && UnitKind(order.what).Known? && id !in before
    && after == before[id := Recruited(order, UnitKind(order.what).value, provinces[order.province], id, at)]
  }

  /** Half of the order's price has gone back to its owner. */
  ghost predicate GaveBackHalf(order: Order, before: map<string, Resources>, after: map<string, Resources>) {
    && UnitKind(order.what).Known? && order.owner in before
    && after == before[order.owner := before[order.owner].Plus(UnitKind(order.what).value.cost.Halved())]
  }

  // ---------- fresh ids ----------

  ghost function Longest(ids: set<string>): nat {
    if ids == {} then 0 else
      var id :| id in ids;
      var rest := Longest(ids - {id});
      if |id| < rest then rest else |id|
  }

  lemma {:induction false} NoneIsLonger(ids: set<string>, id: string)
    requires id in ids
    ensures |id| <= Longest(ids)
    decreases ids
  {
    var z :| z in ids && Longest(ids) == (var rest := Longest(ids - {z}); if |z| < rest then rest else |z|);
    if id == z {
    } else {
      NoneIsLonger(ids - {z}, id);
    }
  }

  /** There is always another id. */
  lemma SomeIdIsFresh(ids: set<string>)
    ensures exists id: string :: id !in ids
  {
    var id := seq(Longest(ids) + 1, i => 'x');
    if id in ids {
      NoneIsLonger(ids, id);
    }
  }
}
