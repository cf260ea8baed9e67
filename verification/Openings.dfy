/** How a match begins, told by the definition of its map. */
module Openings {
  import opened Clock
  import opened Geometry
  import opened Diplomacy
  import opened Timelines
  import opened Units
  import opened Economy
  import opened MatchState
  import opened Agendas
  import opened Histories
  import opened Setups
  import opened Commands
  import opened Travels

  /** Every entry of a map is a unit of the match from its start: of the slot and the type given, with its hit
      points, or 100 if none are given, at rest in its province, and as fast as its type; one of an unknown type is
      as fast as infantry. */
  lemma UnitsStartAsTheMapSays(board: GameMap, now: int, s: Snapshot, i: nat, at: int) returns (id: string)
    requires Starts(board, now, s) && i < |board.startingUnits|
    ensures id in s.a.units
    ensures var u, entry := s.a.units[id], board.startingUnits[i];
            var far := if entry.kind == "cavalry" then 100.0 else if entry.kind == "armor" then 80.0 else 50.0;
            && u.id == id && u.owner == entry.slot && u.kind == entry.kind && u.waypoints == [] && u.WellFormed()
            && u.hp == (if entry.hp == 0.0 then 100.0 else entry.hp) && TravelTime(far, u.speed) == HOUR
            && u.origin == u.dest == entry.province && !u.IsMoving(at)
            && exists k :: 0 <= k < |board.provinces| && board.provinces[k].id == entry.province
                 && (forall j | 0 <= j < k :: board.provinces[j].id != entry.province)
                 && u.PositionAt(at) == board.provinces[k].pos
  {
    hide Founded;
    var ids :| Deployed(board.provinces, board.startingUnits, now, ids, s.a.units);
    id := ids[i];
    var entry := board.startingUnits[i];
    assert DeployedAs(board.provinces, entry, now, id, s.a.units);
    var p :| FirstEntry(board.provinces, entry.province, p) && s.a.units[id] == Stationed(entry, id, p, now);
    HourlyMarches(entry.kind);
    HourlyMarches("infantry");
  }

  /** No later entry of the map is under the same id. */
  ghost predicate IsLast(board: GameMap, i: nat) {
    i < |board.provinces| && forall j | i < j < |board.provinces| :: board.provinces[j].id != board.provinces[i].id
  }

  /** Every province of the map is where its last entry puts it.  If it is the capital of some slot, it is a capital,
      and belongs to the last such slot; otherwise it is none, and belongs to whoever is at home there, if anyone. */
  lemma ProvincesStartAsTheMapSays(board: GameMap, now: int, s: Snapshot, i: nat)
    requires Starts(board, now, s) && IsLast(board, i)
    ensures var entry := board.provinces[i];
            var slots := board.slots;
            && entry.id in s.a.provinces
            && var p := s.a.provinces[entry.id];
            && p.id == entry.id && p.pos == entry.pos
            && (p.capital <==> exists k :: 0 <= k < |slots| && slots[k].capital == entry.id)
            && (!p.capital ==> p.owner == entry.homeSlot)
            && (forall k | 0 <= k < |slots| && slots[k].capital == entry.id
                           && (forall j | k < j < |slots| :: slots[j].capital != entry.id) :: p.owner == slots[k].id)
    ensures forall id | id in s.a.provinces :: exists k :: 0 <= k < |board.provinces| && board.provinces[k].id == id
  {
    hide Deployed, Opens;
    var entry, slots := board.provinces[i], board.slots;
    assert Mentions(board.provinces, entry.id);
    var k :| FoundedAs(board.provinces, slots, entry.id, k, s.a.provinces[entry.id]);
    assert k == i;
    if exists k :: 0 <= k < |slots| && slots[k].capital == entry.id {
      var m := LastClaimant(slots, entry.id, |slots|);
      assert LastClaim(slots, m, entry.id);
    }
    forall id | id in s.a.provinces
      ensures exists k :: 0 <= k < |board.provinces| && board.provinces[k].id == id
    {
      assert Mentions(board.provinces, id);
    }
  }

  lemma {:induction false} LastClaimant(slots: seq<MapSlot>, p: string, n: nat) returns (m: nat)
    requires n <= |slots| && exists k :: 0 <= k < n && slots[k].capital == p
    ensures m < n && slots[m].capital == p && forall j | m < j < n :: slots[j].capital != p
  {
    if slots[n - 1].capital == p {
      m := n - 1;
    } else {
      m := LastClaimant(slots, p, n - 1);
    }
  }

  /** A stockpile pays for n orders at this price on top of another one. */
  predicate PaysFor(bank: Resources, n: nat, price: Resources, first: Resources) {
    && first.manpower + n as real * price.manpower <= bank.manpower && first.food + n as real * price.food <= bank.food
    && first.iron + n as real * price.iron <= bank.iron
  }

  /** At first, every slot can pay for six units of infantry, or three of cavalry, or two of armor, or one factory
      and four units of infantry, and no more. */
  lemma TheOpeningBuys(s: Snapshot, players: set<string>, provinces: ProvinceTable, units: UnitTable, now: int,
                       slot: string, n: nat)
    requires Opens(s, players, provinces, units, now) && slot in players
    ensures slot in s.banks
    ensures PaysFor(s.banks[slot], n, UnitPrice("infantry"), NOTHING) <==> n <= 6
    ensures PaysFor(s.banks[slot], n, UnitPrice("cavalry"), NOTHING) <==> n <= 3
    ensures PaysFor(s.banks[slot], n, UnitPrice("armor"), NOTHING) <==> n <= 2
    ensures PaysFor(s.banks[slot], n, BuildingPrice("factory"), NOTHING) <==> n <= 1
    ensures PaysFor(s.banks[slot], n, UnitPrice("infantry"), BuildingPrice("factory")) <==> n <= 4
  {
  }
}
