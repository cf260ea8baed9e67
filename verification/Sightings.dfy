/** What a slot sees, and through whom, told without the rules that compute it. */
module Sightings {
  import opened Geometry
  import opened StringOrder
  import opened Maps
  import opened Diplomacy
  import opened Coalitions
  import opened Units
  import opened MatchState
  import opened Visibility
  import opened Matches
  import opened Turns

  /** c lets the slot see what it sees: a chain of alliances joins them, or c has shared its map with the slot. */
  ghost predicate Shows(l: Ledger, players: set<string>, c: string, slot: string) {
    c in players && (Linked(l, players, slot, c) || PactKey(c, slot, ShareMap) in l.pacts)
  }

  lemma WhoShows(l: Ledger, players: set<string>, slot: string, c: string)
    requires slot in players
    ensures c in Contributors(l, players, slot) <==> Shows(l, players, c, slot)
  {
    LinkedToSelf(l, players, slot);
    if c in players && l.Stance(slot, c) == Alliance {
      LinkedOneMore(l, players, slot, slot, c);
    }
  }

  /** How far units see. */
  const REACH: map<string, real> := map["infantry" := 2200.0, "cavalry" := 280.0, "armor" := 260.0]

  /** A point is within 180 of a province that shows itself to the slot, or within the reach of such a unit, which
      is 200 if its type is unknown. */
  ghost predicate InSight(l: Ledger, players: set<string>, hypot: (real, real) -> real, provinces: ProvinceTable,
                          units: UnitTable, slot: string, at: int, p: Vec)
  {
    || (exists q :: q in provinces && Shows(l, players, provinces[q].owner, slot)
          && Distance(hypot, p, provinces[q].pos) <= 180.0)
    || exists u :: u in units && Shows(l, players, units[u].owner, slot)
         && Distance(hypot, p, units[u].PositionAt(at)) <=
              if units[u].kind in REACH then REACH[units[u].kind] else 200.0
  }

  lemma SightsAgree(l: Ledger, players: set<string>, hypot: (real, real) -> real, provinces: ProvinceTable,
                    units: UnitTable, slot: string, at: int, p: Vec)
    requires slot in players
    ensures Lit(hypot, provinces, units, Contributors(l, players, slot), at, p) <==>
            InSight(l, players, hypot, provinces, units, slot, at, p)
  {
    hide Contributors, Shows, Unit.PositionAt, Distance;
    forall c
      ensures c in Contributors(l, players, slot) <==> Shows(l, players, c, slot)
    {
      WhoShows(l, players, slot, c);
    }
  }

  /** A slot sees a unit exactly if its owner shows itself to the slot, or it is in sight. */
  lemma UnitsAreSeenIff(l: Ledger, players: set<string>, graph: Graph, provinces: ProvinceTable, units: UnitTable,
                        slot: string, at: int, id: string)
    requires slot in players && id in units
    ensures id in VisibleUnits(graph, provinces, units, Contributors(l, players, slot), at) <==>
            || Shows(l, players, units[id].owner, slot)
            || InSight(l, players, graph.hypot, provinces, units, slot, at, units[id].PositionAt(at))
  {
    hide Contributors, Shows, Unit.PositionAt, InSight, Lit;
    WhoShows(l, players, slot, units[id].owner);
    SightsAgree(l, players, graph.hypot, provinces, units, slot, at, units[id].PositionAt(at));
  }

  /** A slot sees a province exactly if its owner shows itself to the slot, or it is next to such a province, or it
      is in sight. */
  lemma ProvincesAreSeenIff(l: Ledger, players: set<string>, graph: Graph, provinces: ProvinceTable, units: UnitTable,
                            slot: string, at: int, p: string)
    requires slot in players && p in provinces
    ensures p in VisibleProvinces(graph, provinces, units, Contributors(l, players, slot), at) <==>
            || Shows(l, players, provinces[p].owner, slot)
            || (exists q, e :: q in provinces && Shows(l, players, provinces[q].owner, slot) && e in graph.edges
                  && (e == Edge(p, q) || e == Edge(q, p)))
            || InSight(l, players, graph.hypot, provinces, units, slot, at, provinces[p].pos)
  {
    hide Contributors, Shows, Unit.PositionAt, InSight, Lit;
    var eyes := Contributors(l, players, slot);
    forall q | q in provinces
      ensures provinces[q].owner in eyes <==> Shows(l, players, provinces[q].owner, slot)
      ensures p in Nearby(graph, q) <==> Edge(p, q) in graph.edges || Edge(q, p) in graph.edges
    {
      WhoShows(l, players, slot, provinces[q].owner);
      NeighborsJoin(graph, p, q);
    }
    SightsAgree(l, players, graph.hypot, provinces, units, slot, at, provinces[p].pos);
  }

  /** A broadcast tells every slot which units it sees at that moment, and no others. */
  lemma BroadcastsTellWhatIsSeen(m: Match, views: map<string, set<string>>, slot: string, id: string)
    requires Shown(m, views) && slot in m.players && id in m.units
    ensures slot in views
    ensures id in views[slot] <==>
            || Shows(m.diplomacy.Value(), m.players, m.units[id].owner, slot)
            || InSight(m.diplomacy.Value(), m.players, m.graph.hypot, m.provinces, m.units, slot, m.gameNow,
                 m.units[id].PositionAt(m.gameNow))
  {
    hide Shows, InSight, VisibleUnits, Contributors, Unit.PositionAt;
    UnitsAreSeenIff(m.diplomacy.Value(), m.players, m.graph, m.provinces, m.units, slot, m.gameNow, id);
  }

  lemma NeighborsJoin(graph: Graph, p: string, q: string)
    ensures p in Nearby(graph, q) <==> Edge(p, q) in graph.edges || Edge(q, p) in graph.edges
  {
    if graph.HasEdge(q, p) {
      graph.EdgeEnds(q, p);
    }
    if Edge(p, q) in graph.edges || Edge(q, p) in graph.edges {
      var k :| 0 <= k < |graph.edges| && graph.edges[k] in {Edge(p, q), Edge(q, p)};
      assert Joins(graph.edges[k], q, p);
      graph.EdgeEnds(q, p);
    }
  }
}
