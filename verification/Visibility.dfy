/** Fog of war: what a slot sees, and whose eyes it sees with. */
module Visibility {
  import opened Geometry
  import opened StringOrder
  import opened Maps
  import opened Diplomacy
  import opened Coalitions
  import opened Units
  import opened MatchState
  import opened Spatial
  import opened Matches

  const OWNED_PROVINCE_VIEW_RADIUS: real := 180.0

  function UnitViewRadius(kind: string): (r: real)
    ensures 0.0 < r
  {
    if kind == "infantry" then 2200.0
    else if kind == "cavalry" then 280.0
    else if kind == "armor" then 260.0
    else 200.0
  }

  // ---------- whose eyes ----------

  /** The slots whose vision a slot shares: its coalition, and those who share their map with it. */
  ghost function Contributors(l: Ledger, players: set<string>, slot: string): set<string> {
    Component(l, players, slot) + set o | o in players && l.SeesThrough(slot, o)
  }

  /** The cache never claims to be newer than the ledger, and if it claims to be of the same version
      every entry is right. */
  ghost predicate CacheOk(l: Ledger, players: set<string>, cached: bool, version: nat, table: map<string, set<string>>)
  {
    cached ==>
      && version <= l.version
      && (version == l.version ==> forall s {:trigger table[s]} | s in table :: table[s] == Contributors(l, players, s))
  }

  /** Whatever is asked of the registry, a good cache stays good: the version tells every change. */
  lemma CacheStaysOk(l: Ledger, op: Op, now: int, players: set<string>, cached: bool, version: nat,
      table: map<string, set<string>>)
    requires CacheOk(l, players, cached, version, table)
    ensures CacheOk(l.After(op, now), players, cached, version, table)
  {
    hide Ledger.After, Ledger.Verdict;
    VersionWitnessesChange(l, op, now);
  }

  ghost predicate Coherent(m: Match)
    reads m, m.diplomacy
  {
    CacheOk(m.diplomacy.Value(), m.players, m.cached, m.cacheVersion, m.contributors)
  }

  method ComputeViewerContributors(m: Match, slot: string) returns (out: set<string>)
    ensures out == Contributors(m.diplomacy.Value(), m.players, slot)
  {
    var allSlots := m.SlotIDs();
    out := Coalition(m.diplomacy, slot, allSlots);
    ghost var coalition := out;
    for i := 0 to |allSlots|
      invariant out == coalition + set k | 0 <= k < i && m.diplomacy.Value().SeesThrough(slot, allSlots[k]) ::
          allSlots[k]
    {
      var other := allSlots[i];
      if other !in out {
        if m.diplomacy.Value().SeesThrough(slot, other) {
          out := out + {other};
        }
      }
    }
    assert forall o :: o in m.players <==> o in allSlots by {
      assert forall o :: o in Elements(allSlots) <==> o in allSlots;
    }
  }

  /** viewerContributors: whatever the cache holds, the answer is the one for the present ledger. */
  method ViewerContributors(m: Match, slot: string) returns (out: set<string>)
    requires Coherent(m)
    modifies m`cached, m`cacheVersion, m`contributors
    ensures Coherent(m) && out == Contributors(m.diplomacy.Value(), m.players, slot)
  {
    var version := m.diplomacy.version;
    if m.cached && m.cacheVersion == version {
      if slot in m.contributors {
        return m.contributors[slot];
      }
    } else {
      m.cached, m.cacheVersion, m.contributors := true, version, map[];
    }
    out := ComputeViewerContributors(m, slot);
    m.contributors := m.contributors[slot := out];
  }

  // ---------- what is seen ----------

  /** p is in sight of a contributor's province or unit. */
  ghost predicate Lit(hypot: (real, real) -> real, provinces: ProvinceTable, units: UnitTable, eyes: set<string>,
      at: int,
      p: Vec) {
    || (exists q :: q in provinces && provinces[q].owner in eyes
          && Distance(hypot, p, provinces[q].pos) <= OWNED_PROVINCE_VIEW_RADIUS)
    || (exists u :: u in units && units[u].owner in eyes
          && Distance(hypot, p, units[u].PositionAt(at)) <= UnitViewRadius(units[u].kind))
  }

  ghost function Nearby(graph: Graph, p: string): set<string> {
    set n | n in graph.Endpoints() && graph.HasEdge(p, n)
  }

  /** The contributors' provinces and what is next to them. */
  ghost function Homeland(graph: Graph, provinces: ProvinceTable, eyes: set<string>): set<string> {
    (set p | p in provinces && provinces[p].owner in eyes)
    + set p, n | p in provinces && provinces[p].owner in eyes && n in Nearby(graph, p) :: n
  }

  ghost function VisibleProvinces(graph: Graph, provinces: ProvinceTable, units: UnitTable, eyes: set<string>,
      at: int): set<string> {
    Homeland(graph, provinces, eyes)
    + set p | p in provinces && Lit(graph.hypot, provinces, units, eyes, at, provinces[p].pos)
  }

  ghost function VisibleUnits(graph: Graph, provinces: ProvinceTable, units: UnitTable, eyes: set<string>,
      at: int): set<string>
  {
    (set u | u in units && units[u].owner in eyes)
    + set u | u in units && Lit(graph.hypot, provinces, units, eyes, at, units[u].PositionAt(at))
  }

  // ---------- the discs ----------

  function ProvinceDisc(p: Province): Circle {
    Circle(p.pos, OWNED_PROVINCE_VIEW_RADIUS * OWNED_PROVINCE_VIEW_RADIUS)
  }

  function UnitDisc(u: Unit, at: int): Circle {
    Circle(u.PositionAt(at), UnitViewRadius(u.kind) * UnitViewRadius(u.kind))
  }

  ghost function ProvinceDiscs(provinces: ProvinceTable, eyes: set<string>): set<Circle> {
    set p | p in provinces && provinces[p].owner in eyes :: ProvinceDisc(provinces[p])
  }

  ghost function UnitDiscs(units: UnitTable, eyes: set<string>, at: int): set<Circle> {
    set u | u in units && units[u].owner in eyes :: UnitDisc(units[u], at)
  }

  ghost function Members(circles: seq<Circle>): set<Circle> {
    set c | c in circles
  }

  /** Testing squares against squared radii is testing distances against radii. */
  lemma DiscIsNearness(hypot: (real, real) -> real, at: Vec, r: real, p: Vec)
    requires IsHypot(hypot) && 0.0 <= r
    ensures Contains(Circle(at, r * r), p) <==> Distance(hypot, p, at) <= r
  {
    SquareOrder(Distance(hypot, p, at), r);
  }

  /** p is covered by the discs exactly when it is in sight. */
  lemma CoveredIsLit(hypot: (real, real) -> real, provinces: ProvinceTable, units: UnitTable, eyes: set<string>,
      at: int,
                     circles: seq<Circle>, p: Vec)
    requires IsHypot(hypot) && Members(circles) == ProvinceDiscs(provinces, eyes) + UnitDiscs(units, eyes, at)
    ensures Inside(circles, p) <==> Lit(hypot, provinces, units, eyes, at, p)
  {
    if Inside(circles, p) {
      var i :| 0 <= i < |circles| && Contains(circles[i], p);
      assert circles[i] in Members(circles);
      if circles[i] in ProvinceDiscs(provinces, eyes) {
        var q :| q in provinces && provinces[q].owner in eyes && circles[i] == ProvinceDisc(provinces[q]);
        DiscIsNearness(hypot, provinces[q].pos, OWNED_PROVINCE_VIEW_RADIUS, p);
      } else {
        var u :| u in units && units[u].owner in eyes && circles[i] == UnitDisc(units[u], at);
        DiscIsNearness(hypot, units[u].PositionAt(at), UnitViewRadius(units[u].kind), p);
      }
    }
    forall q |
      q in provinces && provinces[q].owner in eyes && Distance(hypot, p, provinces[q].pos) <= OWNED_PROVINCE_VIEW_RADIUS
      ensures Inside(circles, p)
    {
      DiscIsNearness(hypot, provinces[q].pos, OWNED_PROVINCE_VIEW_RADIUS, p);
      assert ProvinceDisc(provinces[q]) in Members(circles);
    }
    forall u | u in units && units[u].owner in eyes
               && Distance(hypot, p, units[u].PositionAt(at)) <= UnitViewRadius(units[u].kind)
      ensures Inside(circles, p)
    {
      DiscIsNearness(hypot, units[u].PositionAt(at), UnitViewRadius(units[u].kind), p);
      assert UnitDisc(units[u], at) in Members(circles);
    }
  }

  // ---------- For ----------

  lemma OneMoreProvinceLit(graph: Graph, before: ProvinceTable, p: string, v: Province, eyes: set<string>)
    requires p !in before
    ensures v.owner in eyes ==>
        && Homeland(graph, before[p := v], eyes) == Homeland(graph, before, eyes) + {p} + Nearby(graph, p)
        && ProvinceDiscs(before[p := v], eyes) == ProvinceDiscs(before, eyes) + {ProvinceDisc(v)}
    ensures v.owner !in eyes ==>
        && Homeland(graph, before[p := v], eyes) == Homeland(graph, before, eyes)
        && ProvinceDiscs(before[p := v], eyes) == ProvinceDiscs(before, eyes)
  {
    var after := before[p := v];
    assert forall q | q in before :: after[q] == before[q];
    assert after[p] == v;
  }

  lemma OneMoreMember(circles: seq<Circle>, c: Circle)
    ensures Members(circles + [c]) == Members(circles) + {c} && Members([]) == {}
  {
    assert (circles + [c])[|circles|] == c;
    assert forall x | x in circles :: x in circles + [c];
  }

  /** A province of a contributor is lit, and so is what is next to it. */
  method LightProvince(graph: Graph, p: string) returns (lit: set<string>)
    ensures lit == {p} + Nearby(graph, p)
  {
    var nbs := Neighbors(graph, p);
    lit := {p};
    for i := 0 to |nbs|
      invariant lit == {p} + set k | 0 <= k < i :: nbs[k]
    {
      lit := lit + {nbs[i]};
    }
    forall n | graph.HasEdge(p, n)
      ensures n in Nearby(graph, p)
    {
      graph.EdgeEnds(p, n);
    }
  }

  /** The loop over the contributors' provinces. */
  method LightProvinces(graph: Graph, provinces: ProvinceTable, eyes: set<string>) returns (seen: set<string>,
      circles: seq<Circle>)
    ensures seen == Homeland(graph, provinces, eyes) && Members(circles) == ProvinceDiscs(provinces, eyes)
  {
    seen, circles := {}, [];
    var rest := provinces.Keys;
    ghost var done: ProvinceTable := map[];
    assert Homeland(graph, done, eyes) == {} && ProvinceDiscs(done, eyes) == {};
    while rest != {}
      invariant rest <= provinces.Keys && done == map p | p in provinces && p !in rest :: provinces[p]
      invariant seen == Homeland(graph, done, eyes) && Members(circles) == ProvinceDiscs(done, eyes)
      decreases rest
    {
      hide Homeland, Nearby, ProvinceDiscs, Members;
      var p :| p in rest;
      rest := rest - {p};
      OneMoreProvinceLit(graph, done, p, provinces[p], eyes);
      done := done[p := provinces[p]];
      if provinces[p].owner in eyes {
        var lit := LightProvince(graph, p);
        OneMoreMember(circles, ProvinceDisc(provinces[p]));
        seen := seen + lit;
        circles := circles + [ProvinceDisc(provinces[p])];
      }
    }
    assert done == provinces;
  }

  lemma OneMoreUnitLit(before: UnitTable, id: string, u: Unit, eyes: set<string>, at: int)
    requires id !in before
    ensures UnitDiscs(before[id := u], eyes, at) == UnitDiscs(before, eyes,
        at) + (if u.owner in eyes then {UnitDisc(u, at)} else {})
  {
    var after := before[id := u];
    assert forall q | q in before :: after[q] == before[q];
    assert after[id] == u;
  }

  /** The loop over the contributors' units. */
  method LightUnits(units: UnitTable, eyes: set<string>, at: int) returns (seen: set<string>, circles: seq<Circle>)
    ensures seen == (set u | u in units && units[u].owner in eyes) && Members(circles) == UnitDiscs(units, eyes, at)
  {
    seen, circles := {}, [];
    var rest := units.Keys;
    ghost var done: UnitTable := map[];
    assert UnitDiscs(done, eyes, at) == {};
    while rest != {}
      invariant rest <= units.Keys && done == map u | u in units && u !in rest :: units[u]
      invariant seen == (set u | u in units && u !in rest && units[u].owner in eyes)
      invariant Members(circles) == UnitDiscs(done, eyes, at)
      decreases rest
    {
      hide UnitDiscs, Members;
      var id :| id in rest;
      rest := rest - {id};
      OneMoreUnitLit(done, id, units[id], eyes, at);
      done := done[id := units[id]];
      if units[id].owner in eyes {
        OneMoreMember(circles, UnitDisc(units[id], at));
        seen := seen + {id};
        circles := circles + [UnitDisc(units[id], at)];
      }
    }
    assert done == units;
  }

  /** The positions of what is not seen yet. */
  method PointsOf(places: map<string, Vec>, seen: set<string>) returns (points: seq<Vec>)
    ensures points == [] ==> places.Keys <= seen
  {
    points := [];
    var rest := places.Keys;
    while rest != {}
      invariant rest <= places.Keys && (points == [] ==> places.Keys - rest <= seen)
      decreases rest
    {
      var k :| k in rest;
      rest := rest - {k};
      if k !in seen {
        points := points + [places[k]];
      }
    }
  }

  /** The keys of the places that lie in some disc. */
  ghost function Reached(circles: seq<Circle>, places: map<string, Vec>): set<string> {
    set k | k in places && Inside(circles, places[k])
  }

  /** The loops over what is not seen yet. */
  method SeeMore(idx: SpatialIndex?, circles: seq<Circle>, places: map<string, Vec>, seen: set<string>,
      ghost sqrt: real -> real)
    returns (more: set<string>)
    requires idx == null ==> places.Keys <= seen
    requires idx != null ==> IsSqrt(sqrt) && idx.Indexes(sqrt, circles)
    ensures more == seen + Reached(circles, places)
  {
    more := seen;
    var rest := places.Keys;
    while rest != {}
      invariant rest <= places.Keys && more == seen + (Reached(circles, places) - rest)
      decreases rest
    {
      var k :| k in rest;
      if k !in more {
        if idx != null {
          var found := idx.Within(places[k], circles, sqrt);
          if found {
            more := more + {k};
          }
        }
      }
      rest := rest - {k};
    }
  }

  /** Both kinds of things seen, as the discs tell. */
  lemma DiscsTell(graph: Graph, provinces: ProvinceTable, units: UnitTable, eyes: set<string>, at: int,
      circles: seq<Circle>)
    requires IsHypot(graph.hypot) && Members(circles) == ProvinceDiscs(provinces, eyes) + UnitDiscs(units, eyes, at)
    ensures VisibleProvinces(graph, provinces, units, eyes, at)
         == Homeland(graph, provinces, eyes) + Reached(circles, map p | p in provinces :: provinces[p].pos)
    ensures VisibleUnits(graph, provinces, units, eyes, at)
         == (set u | u in units && units[u].owner in eyes)
            + Reached(circles, map u | u in units :: units[u].PositionAt(at))
  {
    hide Lit, ProvinceDiscs, UnitDiscs, Members, Inside, Homeland;
    forall p: Vec
      ensures Inside(circles, p) <==> Lit(graph.hypot, provinces, units, eyes, at, p)
    {
      CoveredIsLit(graph.hypot, provinces, units, eyes, at, circles, p);
    }
  }

  lemma MembersJoin(a: seq<Circle>, b: seq<Circle>)
    ensures Members(a + b) == Members(a) + Members(b)
  {
    assert forall c :: c in a + b <==> c in a || c in b;
  }

  /** For: the grid sees exactly what testing every contributor's disc would see, and the cache of
      contributors never shows. */
  method For(m: Match, slot: string, at: int, sqrt: real -> real) returns (visibleProvinces: set<string>,
      visibleUnits: set<string>)
    requires Coherent(m) && IsSqrt(sqrt) && IsHypot(m.graph.hypot)
    modifies m`cached, m`cacheVersion, m`contributors
    ensures Coherent(m)
    ensures var eyes := Contributors(m.diplomacy.Value(), m.players, slot);
            && visibleProvinces == VisibleProvinces(m.graph, m.provinces, m.units, eyes, at)
            && visibleUnits == VisibleUnits(m.graph, m.provinces, m.units, eyes, at)
  {
    hide CacheOk, Contributors, Lit, ProvinceDiscs, UnitDiscs, Members, Inside, Homeland, VisibleProvinces,
         VisibleUnits, Reached;
    var eyes := ViewerContributors(m, slot);
    var provinceCircles, unitCircles;
    visibleProvinces, provinceCircles := LightProvinces(m.graph, m.provinces, eyes);
    visibleUnits, unitCircles := LightUnits(m.units, eyes, at);
    var circles := provinceCircles + unitCircles;
    MembersJoin(provinceCircles, unitCircles);
    DiscsTell(m.graph, m.provinces, m.units, eyes, at, circles);
    var homes := map p | p in m.provinces :: m.provinces[p].pos;
    var spots := map u | u in m.units :: m.units[u].PositionAt(at);
    if |circles| == 0 {
      NoDiscsNoReach(circles, homes);
      NoDiscsNoReach(circles, spots);
      return;
    }
    var idx := IndexFor(circles, homes, spots, visibleProvinces, visibleUnits, sqrt, eyes, m.provinces, m.units, at);
    visibleProvinces := SeeMore(idx, circles, homes, visibleProvinces, sqrt);
    visibleUnits := SeeMore(idx, circles, spots, visibleUnits, sqrt);
  }

  lemma NoDiscsNoReach(circles: seq<Circle>, places: map<string, Vec>)
    requires circles == []
    ensures Reached(circles, places) == {}
  {
  }

  lemma RadiiAreReal(provinces: ProvinceTable, units: UnitTable, eyes: set<string>, at: int, circles: seq<Circle>)
    requires Members(circles) == ProvinceDiscs(provinces, eyes) + UnitDiscs(units, eyes, at)
    ensures forall i {:trigger circles[i]} | 0 <= i < |circles| :: 0.0 <= circles[i].r2
  {
    forall i | 0 <= i < |circles|
      ensures 0.0 <= circles[i].r2
    {
      assert circles[i] in Members(circles);
    }
  }

  /** The index over the discs and everything not seen yet. */
  method IndexFor(circles: seq<Circle>, homes: map<string, Vec>, spots: map<string, Vec>, seenProvinces: set<string>,
                  seenUnits: set<string>, sqrt: real -> real, ghost eyes: set<string>, ghost provinces: ProvinceTable,
                  ghost units: UnitTable, ghost at: int)
    returns (idx: SpatialIndex?)
    requires IsSqrt(sqrt) && circles != []
    requires Members(circles) == ProvinceDiscs(provinces, eyes) + UnitDiscs(units, eyes, at)
    ensures idx == null ==> homes.Keys <= seenProvinces && spots.Keys <= seenUnits
    ensures idx != null ==> fresh(idx) && idx.Indexes(sqrt, circles)
  {
    RadiiAreReal(provinces, units, eyes, at, circles);
    var a := PointsOf(homes, seenProvinces);
    var b := PointsOf(spots, seenUnits);
    idx := NewSpatialIndex(sqrt, circles, a + b);
    assert a + b == [] ==> a == [] && b == [] by { assert |a + b| == |a| + |b|; }
  }
}
