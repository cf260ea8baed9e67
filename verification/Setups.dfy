/** How a match begins: from the definition of a map. */
module Setups {
  import opened Geometry
  import opened StringOrder
  import opened Maps
  import opened Router
  import opened Diplomacy
  import opened Timelines
  import opened Units
  import opened Economy
  import opened MatchState
  import opened Agendas
  import opened Revenues
  import opened Histories
  import opened Matches

  datatype MapProvince = MapProvince(id: string, pos: Vec, homeSlot: string)
  datatype MapSlot = MapSlot(id: string, capital: string)
  datatype StartingUnit = StartingUnit(slot: string, kind: string, province: string, hp: real)

  datatype GameMap = GameMap(provinces: seq<MapProvince>, edges: seq<Edge>, slots: seq<MapSlot>,
      startingUnits: seq<StartingUnit>)

  const FALLBACK_UNIT_SPEED: real := 50.0 / 3600.0

  /** defaultSpeed: that of the type, or of infantry. */
  function DefaultSpeed(kind: string): (v: real)
    ensures v > 0.0
  {
    if UnitKind(kind).Known? then UnitKind(kind).value.speed
    else if UnitKind("infantry").Known? then UnitKind("infantry").value.speed
    else FALLBACK_UNIT_SPEED
  }

  // ---------- provinces ----------

  /** Entry i is the last one under this id: a later entry replaces an earlier one. */
  ghost predicate LastEntry(ps: seq<MapProvince>, i: int, id: string) {
    0 <= i < |ps| && ps[i].id == id && forall j | i < j < |ps| :: ps[j].id != id
  }

  ghost predicate LastClaim(slots: seq<MapSlot>, k: int, p: string) {
    0 <= k < |slots| && slots[k].capital == p && forall j | k < j < |slots| :: slots[j].capital != p
  }

  ghost predicate Mentions(ps: seq<MapProvince>, id: string) {
    exists i :: 0 <= i < |ps| && ps[i].id == id
  }

  /** Province p as entry i of the map and the slots make it: whoever's capital it is owns it, else whoever
      is at home there. */
  ghost predicate FoundedAs(ps: seq<MapProvince>, slots: seq<MapSlot>, p: string, i: int, prov: Province) {
    && LastEntry(ps, i, p) && prov.id == p && prov.pos == ps[i].pos
    && (prov.capital <==> exists k :: LastClaim(slots, k, p))
    && (forall k | LastClaim(slots, k, p) :: prov.owner == slots[k].id)
    && ((forall k :: !LastClaim(slots, k, p)) ==> prov.owner == ps[i].homeSlot)
  }

  ghost predicate Founded(ps: seq<MapProvince>, slots: seq<MapSlot>, provinces: ProvinceTable) {
    && (forall p {:trigger provinces[p]} | p in provinces :: exists i :: FoundedAs(ps, slots, p, i, provinces[p]))
    && forall id {:trigger Mentions(ps, id)} :: Mentions(ps, id) <==> id in provinces
  }

  /** One province per id. */
  method LayProvinces(ps: seq<MapProvince>) returns (provinces: ProvinceTable)
    ensures Founded(ps, [], provinces)
  {
    provinces := map[];
    for n := 0 to |ps|
      invariant Founded(ps[..n], [], provinces)
    {
      var p := ps[n];
      FoundOneMore(ps, n, provinces);
      provinces := provinces[p.id := Province(p.id, p.pos, p.homeSlot, false)];
    }
    assert ps[..|ps|] == ps;
  }

  lemma FoundOneMore(ps: seq<MapProvince>, n: nat, provinces: ProvinceTable)
    requires n < |ps| && Founded(ps[..n], [], provinces)
    ensures Founded(ps[..n + 1], [], provinces[ps[n].id := Province(ps[n].id, ps[n].pos, ps[n].homeSlot, false)])
  {
    var p, qs := ps[n], ps[..n + 1];
    var after := provinces[p.id := Province(p.id, p.pos, p.homeSlot, false)];
    forall q | q in after
      ensures exists i :: FoundedAs(qs, [], q, i, after[q])
    {
      if q == p.id {
        assert FoundedAs(qs, [], q, n, after[q]);
      } else {
        var i :| FoundedAs(ps[..n], [], q, i, provinces[q]);
        assert FoundedAs(qs, [], q, i, after[q]);
      }
    }
    forall id
      ensures Mentions(qs, id) <==> id in after
    {
      assert qs[n] == p;
      if Mentions(ps[..n], id) {
        var i :| 0 <= i < n && ps[..n][i].id == id;
        assert qs[i].id == id;
      }
      if Mentions(qs, id) && id != p.id {
        var i :| 0 <= i < |qs| && qs[i].id == id;
        assert ps[..n][i].id == id;
      }
    }
  }

  /** Each slot claims its capital. */
  method ClaimCapitals(ps: seq<MapProvince>, slots: seq<MapSlot>, laid: ProvinceTable)
    returns (provinces: ProvinceTable)
    requires Founded(ps, [], laid)
    ensures Founded(ps, slots, provinces) && provinces.Keys == laid.Keys
  {
    provinces := laid;
    for n := 0 to |slots|
      invariant Founded(ps, slots[..n], provinces) && provinces.Keys == laid.Keys
    {
      var s := slots[n];
      ClaimOneMore(ps, slots, n, provinces);
      if s.capital in provinces {
        provinces := provinces[s.capital := provinces[s.capital].(owner := s.id, capital := true)];
      }
    }
    assert slots[..|slots|] == slots;
  }

  lemma ClaimOneMore(ps: seq<MapProvince>, slots: seq<MapSlot>, n: nat, provinces: ProvinceTable)
    requires n < |slots| && Founded(ps, slots[..n], provinces)
    ensures var s := slots[n];
            Founded(ps, slots[..n + 1], if s.capital in provinces
              then provinces[s.capital := provinces[s.capital].(owner := s.id, capital := true)] else provinces)
  {
    var s, before, now := slots[n], slots[..n], slots[..n + 1];
    assert now == before + [s];
    var after := if s.capital in provinces
      then provinces[s.capital := provinces[s.capital].(owner := s.id, capital := true)] else provinces;
    forall q | q in after
      ensures exists i :: FoundedAs(ps, now, q, i, after[q])
    {
      var i :| FoundedAs(ps, before, q, i, provinces[q]);
      ClaimsOneMore(before, s, q);
      assert FoundedAs(ps, now, q, i, after[q]);
    }
  }

  lemma ClaimsOneMore(before: seq<MapSlot>, s: MapSlot, p: string)
    ensures s.capital == p ==> LastClaim(before + [s], |before|, p)
    ensures s.capital == p ==> forall k | k != |before| :: !LastClaim(before + [s], k, p)
    ensures s.capital != p ==> forall k :: LastClaim(before + [s], k, p) <==> LastClaim(before, k, p)
  {
    var now := before + [s];
    assert now[|before|] == s;
    forall k
      ensures s.capital != p ==> (LastClaim(now, k, p) <==> LastClaim(before, k, p))
    {
      assert 0 <= k < |before| ==> now[k] == before[k];
      assert forall j | 0 <= j < |before| :: now[j] == before[j];
    }
  }

  // ---------- units ----------

  /** Map.Province: the first entry under this id. */
  method FindProvince(ps: seq<MapProvince>, id: string) returns (found: bool, p: MapProvince)
    ensures found <==> Mentions(ps, id)
    ensures found ==> FirstEntry(ps, id, p)
  {
    for i := 0 to |ps|
      invariant forall j | 0 <= j < i :: ps[j].id != id
    {
      if ps[i].id == id {
        return true, ps[i];
      }
    }
    found, p := false, MapProvince("", Vec(0.0, 0.0), "");
  }

  ghost predicate FirstEntry(ps: seq<MapProvince>, id: string, p: MapProvince) {
    exists i :: 0 <= i < |ps| && ps[i] == p && p.id == id && forall j | 0 <= j < i :: ps[j].id != id
  }

  /** The unit that su puts on the map, at rest in its province. */
  function Stationed(su: StartingUnit, id: string, p: MapProvince, now: int): Unit {
    Unit(id, su.slot, su.kind, if su.hp == 0.0 then 100.0 else su.hp, p.id, p.id, now, now, p.pos, p.pos,
         DefaultSpeed(su.kind), 1, [], 0, [])
  }

  /** ids[i] is the unit that entry i puts on the map; there are no others. */
  ghost predicate Deployed(ps: seq<MapProvince>, sus: seq<StartingUnit>, now: int, ids: seq<string>, units: UnitTable) {
    && |ids| == |sus| && Simple(ids) && Elements(ids) == units.Keys && "" !in units
    && forall i {:trigger ids[i]} | 0 <= i < |ids| :: DeployedAs(ps, sus[i], now, ids[i], units)
  }

  ghost predicate DeployedAs(ps: seq<MapProvince>, su: StartingUnit, now: int, id: string, units: UnitTable) {
    id in units && exists p :: FirstEntry(ps, su.province, p) && units[id] == Stationed(su, id, p, now)
  }

  /** Every starting unit is somewhere on the map. */
  ghost predicate Deployable(ps: seq<MapProvince>, sus: seq<StartingUnit>) {
    forall i {:trigger sus[i]} | 0 <= i < |sus| :: Mentions(ps, sus[i].province)
  }

  method DeployUnits(ps: seq<MapProvince>, sus: seq<StartingUnit>, now: int)
    returns (ok: bool, units: UnitTable, ghost ids: seq<string>)
    ensures ok <==> Deployable(ps, sus)
    ensures ok ==> Deployed(ps, sus, now, ids, units)
  {
    units, ids := map[], [];
    for n := 0 to |sus|
      invariant Deployed(ps, sus[..n], now, ids, units) && Deployable(ps, sus[..n])
    {
      var found, p := FindProvince(ps, sus[n].province);
      if !found {
        assert !Mentions(ps, sus[n].province);
        return false, map[], [];
      }
      SomeIdIsFresh(units.Keys + {""});
      var id :| id !in units.Keys + {""};
      DeployOneMore(ps, sus, n, now, ids, units, id, p);
      units, ids := units[id := Stationed(sus[n], id, p, now)], ids + [id];
    }
    assert sus[..|sus|] == sus;
    ok := true;
  }

  lemma DeployOneMore(ps: seq<MapProvince>, sus: seq<StartingUnit>, n: nat, now: int, ids: seq<string>,
      units: UnitTable,
                      id: string, p: MapProvince)
    requires n < |sus| && Deployed(ps, sus[..n], now, ids, units) && Deployable(ps, sus[..n])
    requires id !in units && id != "" && FirstEntry(ps, sus[n].province, p) && Mentions(ps, sus[n].province)
    ensures Deployed(ps, sus[..n + 1], now, ids + [id], units[id := Stationed(sus[n], id, p, now)])
    ensures Deployable(ps, sus[..n + 1])
  {
    hide Mentions, FirstEntry, Stationed;
    var units', ids', now' := units[id := Stationed(sus[n], id, p, now)], ids + [id], sus[..n + 1];
    SimplyOneMoreId(ids, id);
    forall i | 0 <= i < |ids'|
      ensures DeployedAs(ps, now'[i], now, ids'[i], units')
    {
      if i < n {
        assert ids[i] in Elements(ids) && DeployedAs(ps, sus[..n][i], now, ids[i], units);
      }
    }
    assert forall i | 0 <= i < n :: now'[i] == sus[..n][i];
  }

  lemma SimplyOneMoreId(ids: seq<string>, id: string)
    requires Simple(ids) && id !in Elements(ids)
    ensures Simple(ids + [id]) && Elements(ids + [id]) == Elements(ids) + {id}
  {
    assert id !in ids;
  }

  // ---------- the match ----------

  ghost function SlotIds(slots: seq<MapSlot>): set<string> {
    set k | 0 <= k < |slots| :: slots[k].id
  }

  /** What a map file must respect: everything has a name, everyone named as an owner is one of the slots,
      and no two provinces are further apart than a float can say. */
  ghost predicate Sensible(m: GameMap, hypot: (real, real) -> real) {
    && IsHypot(hypot) && "" !in SlotIds(m.slots)
    && (forall i | 0 <= i < |m.provinces| ::
          m.provinces[i].id != "" && (m.provinces[i].homeSlot == "" || m.provinces[i].homeSlot in SlotIds(m.slots)))
    && (forall i, j | 0 <= i < |m.provinces| && 0 <= j < |m.provinces| ::
          Distance(hypot, m.provinces[i].pos, m.provinces[j].pos) <= MAX_FLOAT)
    && (forall i | 0 <= i < |m.edges| :: m.edges[i].from != "" && m.edges[i].to != "")
    && forall i | 0 <= i < |m.startingUnits| :: m.startingUnits[i].slot in SlotIds(m.slots)
  }

  /** The movement graph of the map. */
  function GraphOf(m: GameMap, hypot: (real, real) -> real, provinces: ProvinceTable): Graph {
    Graph(map p | p in provinces :: provinces[p].pos, m.edges, hypot)
  }

  lemma GraphIsSound(m: GameMap, hypot: (real, real) -> real, provinces: ProvinceTable)
    requires Sensible(m, hypot) && Founded(m.provinces, m.slots, provinces)
    ensures GraphOf(m, hypot, provinces).Sound()
  {
    hide IsHypot;
    forall a, b | a in provinces && b in provinces
      ensures Distance(hypot, provinces[a].pos, provinces[b].pos) <= MAX_FLOAT && a != ""
    {
      var i :| FoundedAs(m.provinces, m.slots, a, i, provinces[a]);
      var j :| FoundedAs(m.provinces, m.slots, b, j, provinces[b]);
    }
  }

  lemma RosterIsProper(m: GameMap, hypot: (real, real) -> real, provinces: ProvinceTable, now: int, ids: seq<string>,
      units: UnitTable)
    requires Sensible(m, hypot) && Founded(m.provinces, m.slots, provinces)
    requires Deployed(m.provinces, m.startingUnits, now, ids, units)
    ensures RosterOk(units, provinces, SlotIds(m.slots))
    ensures forall id | id in units :: units[id].WellFormed() && units[id].speed > 0.0 && !units[id].HasLeg()
  {
    forall id | id in units
      ensures units[id].id == id && units[id].owner in SlotIds(m.slots)
      ensures units[id].WellFormed() && units[id].speed > 0.0 && !units[id].HasLeg()
    {
      assert id in Elements(ids);
      var i :| 0 <= i < |ids| && ids[i] == id;
      assert DeployedAs(m.provinces, m.startingUnits[i], now, id, units);
    }
    forall p | p in provinces
      ensures provinces[p].id == p && (provinces[p].owner == "" || provinces[p].owner in SlotIds(m.slots))
    {
      var i :| FoundedAs(m.provinces, m.slots, p, i, provinces[p]);
    }
  }

  /** The opening of a match on this map. */
  ghost predicate Starts(m: GameMap, now: int, s: Snapshot) {
    && Founded(m.provinces, m.slots, s.a.provinces)
    && (exists ids :: Deployed(m.provinces, m.startingUnits, now, ids, s.a.units))
    && Opens(s, SlotIds(m.slots), s.a.provinces, s.a.units, now)
  }

  /** New: a match on this map, or none if a starting unit is nowhere on it. */
  method NewMatch(m: GameMap, hypot: (real, real) -> real, now: int) returns (r: Match?)
    requires Sensible(m, hypot)
    ensures r != null <==> Deployable(m.provinces, m.startingUnits)
    ensures r != null ==> fresh(r) && fresh(r.timeline) && fresh(r.timeline.heap) && fresh(r.diplomacy)
    ensures r != null ==> r.Core() && r.Solvent() && r.graph.Sound() && !r.cached && Starts(m, now, r.Snap())
    ensures r != null ==> r.graph == GraphOf(m, hypot, r.provinces)
  {
    hide Timeline.Valid, Attainable, Founded, Deployed, Deployable, RosterOk, Graph.Sound, Sensible, Match.Solvent,
         Opens;
    r := null;
    var laid := LayProvinces(m.provinces);
    var provinces := ClaimCapitals(m.provinces, m.slots, laid);
    var ok, units;
    ghost var ids;
    ok, units, ids := DeployUnits(m.provinces, m.startingUnits, now);
    if ok {
      GraphIsSound(m, hypot, provinces);
      RosterIsProper(m, hypot, provinces, now, ids, units);
      NamelessIsNobody(m.provinces, m.startingUnits, now, ids, units);
      var players := set k | 0 <= k < |m.slots| :: m.slots[k].id;
      r := new Match(GraphOf(m, hypot, provinces), provinces, units, players, now);
      TheOpening(r.Snap(), players, provinces, units, now);
    }
  }

  lemma TheOpening(s: Snapshot, players: set<string>, provinces: ProvinceTable, units: UnitTable, now: int)
    requires Opens(s, players, provinces, units, now)
    ensures s.a.provinces == provinces && s.a.units == units && s.a.players == players
    ensures Opens(s, players, s.a.provinces, s.a.units, now)
  {
  }

  lemma NamelessIsNobody(ps: seq<MapProvince>, sus: seq<StartingUnit>, now: int, ids: seq<string>, units: UnitTable)
    requires Deployed(ps, sus, now, ids, units)
    ensures "" !in units
  {
  }
}
