/** The match: the authoritative state of one game, its event handlers and its event loop. */
module Matches {
  import opened Clock
  import opened Geometry
  import opened StringOrder
  import opened Maps
  import opened Routes
  import opened Router
  import opened Diplomacy
  import opened Coalitions
  import opened Timelines
  import opened Workloads
  import opened Units
  import opened Fights
  import opened Economy
  import opened MatchState
  import opened Agendas
  import opened Bouts
  import opened Colours
  import opened Pooling
  import opened Perils
  import opened Maneuvers
  import opened Revenues
  import opened Chronicles
  import opened Histories

  class Match {
    const graph: Graph
    const players: set<string>
    const timeline: Timeline
    const diplomacy: Registry
    var provinces: ProvinceTable
    var units: UnitTable
    var resources: map<string, Resources>
    var buildings: seq<Building>
    var active: bool
    var winnerSlot: string
    var winnerCoal: seq<string>
    var cleanupDone: bool
    var seqNo: nat
    var nextRecruit: OrderTable
    var nextBuild: OrderTable
    var gameNow: int
    var log: seq<AppliedEvent>   // every report so far; the program hands them out slice by slice
    var ids: set<string>         // the ids handed out so far: a UUID is an id not among them
    var cached: bool             // whether VisContributors is set
    var cacheVersion: nat        // VisContributorVersion
    var contributors: map<string, set<string>>  // VisContributors

    ghost var busy: set<string>       // units whose arrival is being handled right now
    ghost var stranded: set<string>   // units whose arrival was superseded and never replaced
    ghost var paid: set<string>       // recruit orders ever paid for,
    ghost var delivered: set<string>  // those that became a unit,
    ghost var refunded: set<string>   // and those refunded

    /** A match over a given map: everyone at rest, everyone with the same stockpile, and the
        first economic pulse an interval away. */
    constructor (graph: Graph, provinces: ProvinceTable, units: UnitTable, players: set<string>, now: int)
      requires graph.Sound() && RosterOk(units, provinces, players) && "" !in units
      requires forall id | id in units :: units[id].WellFormed() && units[id].speed > 0.0 && !units[id].HasLeg()
      ensures Core() && Solvent() && Opens(Snap(), players, provinces, units, now) && !cached
      ensures fresh(timeline) && fresh(timeline.heap) && fresh(diplomacy)
      ensures this.graph == graph && this.players == players
    {
      hide Timeline.Valid;
      this.graph, this.players, this.provinces, this.units := graph, players, provinces, units;
      timeline := new Timeline();
      diplomacy := new Registry();
      resources := map s | s in players :: STARTING_RESOURCES;
      buildings, nextRecruit, nextBuild := [], map[], map[];
      active, winnerSlot, winnerCoal, cleanupDone := true, "", [], false;
      seqNo, log, gameNow := 0, [], now;
      ids := units.Keys + {""};
      cached, cacheVersion, contributors := false, 0, map[];
      busy, stranded, paid, delivered, refunded := {}, {}, {}, {}, {};
      Begins(players, provinces, units, now);
      new;
      ghost var before := Present();
      ghost var e := timeline.Push(now + MACRO_PULSE_INTERVAL, MacroPulse, "", 0);
      Goes(before, PutPulse(e));
      assert NextPulse({}, timeline.pending, e, now);
    }

    /** The present agenda, with the accounts kept by the history. */
    ghost function Present(): Agenda
      reads this, timeline
    {
      Agenda(players, provinces, units, timeline.pending, gameNow, nextRecruit, nextBuild, active, cleanupDone,
        log, seqNo, ids, busy, stranded, paid, delivered, refunded)
    }

    /** Whether the match is over, and for whom. */
    ghost function Verdict(): Standing
      reads this`active, this`winnerSlot, this`winnerCoal
    {
      Standing(active, winnerSlot, winnerCoal)
    }

    /** The whole match at this moment. */
    ghost function Snap(): Snapshot
      reads this, timeline, diplomacy
    {
      Snapshot(Present(), diplomacy.Value(), resources, buildings, winnerSlot, winnerCoal)
    }

    /** What holds whenever control is between two steps: the queue is in order, and the history
        accounts for the present state. */
    ghost predicate Core()
      reads this, timeline, timeline.heap
    {
      timeline.Valid() && Attainable(Present())
    }

    /** Number and file one report. */
    method Emit(kind: AppliedKind, at: int, unitID: string, province: string, slot: string) returns (r: AppliedEvent)
      requires LogOk(log, seqNo)
      modifies this`log, this`seqNo
      ensures LogOk(log, seqNo) && seqNo == old(seqNo) + 1 && log == old(log) + [r]
      ensures r == AppliedEvent(kind, at, seqNo, unitID, province, slot)
    {
      seqNo := seqNo + 1;
      r := AppliedEvent(kind, at, seqNo, unitID, province, slot);
      log := log + [r];
    }

    /** SlotIDs: every slot of the match, sorted. */
    method SlotIDs() returns (out: seq<string>)
      ensures Sorted(out) && Elements(out) == players
    {
      out := SortedKeys(players);
    }

    // ---------- combat ----------

    method PickExtreme(champions: map<string, string>, low: bool) returns (pick: string, ghost key: string)
      requires champions != map[] && forall k | k in champions :: champions[k] in units
      ensures key in champions && champions[key] == pick && pick in units
      ensures forall k | k in champions ::
          if low then units[pick].hp <= units[champions[k]].hp else units[champions[k]].hp <= units[pick].hp
    {
      key :| key in champions;
      var rest := champions.Keys;
      var first := true;
      pick := "";
      while rest != {}
        invariant rest <= champions.Keys && (first ==> rest == champions.Keys)
        invariant !first ==> key in champions && champions[key] == pick && pick in units
        invariant !first ==> forall k | k in champions && k !in rest ::
            if low then units[pick].hp <= units[champions[k]].hp else units[champions[k]].hp <= units[pick].hp
        decreases rest
      {
        var k :| k in rest;
        rest := rest - {k};
        var u := champions[k];
        if first || (low && units[u].hp < units[pick].hp) || (!low && units[pick].hp < units[u].hp) {
          pick, key, first := u, k, false;
        }
      }
    }

    /** The pair of the next round: the weakest champion and the strongest of the others. */
    method PickPair(champions: map<string, string>) returns (weakest: string, attacker: string)
      requires |champions| > 1 && Bout(units, champions).Ready()
      ensures exists w, a ::
          Bout(units, champions).Picked(w, a) && weakest == champions[w] && attacker == champions[a]
    {
      ghost var w, a;
      weakest, w := PickExtreme(champions, true);
      var others := map k | k in champions && champions[k] != weakest :: champions[k];
      OthersRemain(champions, w);
      attacker, a := PickExtreme(others, false);
      PicksAreExtreme(units, champions, others, w, a);
      assert Bout(units, champions).Picked(w, a) && weakest == champions[w] && attacker == champions[a];
    }

    /** A blow is reported, and so is the death if it is one. */
    method ReportBlow(victim: string, owner: string, died: bool, prov: string, at: int) returns (out: seq<AppliedEvent>)
      requires LogOk(log, seqNo)
      modifies this`seqNo, this`log
      ensures LogOk(log, seqNo) && log == old(log) + out && OneBlow(out, victim, died, at)
      ensures out[0] == AppliedEvent(CombatDamage, at, old(seqNo) + 1, victim, prov, owner)
    {
      hide LogOk, OneBlow;
      var blow := Emit(CombatDamage, at, victim, prov, owner);
      out := [blow];
      BlowIsReported(blow, victim);
      if died {
        var death := Emit(UnitDestroyed, at, victim, prov, owner);
        DeathIsReported(blow, death);
        QuietJoins(old(log), out, [death], at);
        out := out + [death];
      }
    }

    /** The blow itself: weakest loses hit points and, if none are left, its life. */
    method LandBlow(champs: map<string, string>, weakest: string, attacker: string, prov: string, at: int)
      returns (champions: map<string, string>, out: seq<AppliedEvent>)
      requires LogOk(log, seqNo) && weakest in units && attacker in units && units[weakest].owner in champs
      modifies this`units, this`seqNo, this`log
      ensures Bout(units, champions) == Bout(old(units), champs).Struck(weakest, attacker)
      ensures LogOk(log, seqNo) && log == old(log) + out
      ensures Recounts(out, Bout(old(units), champs), Bout(units, champions), 1, at)
    {
      hide LogOk, OneBlow, Recounts;
      champions := champs;
      var u := units[weakest];
      u := u.(hp := u.hp - UnitDamage(units[attacker].kind, u.kind));
      units := units[weakest := u];
      if u.hp <= 0.0 {
        units := units - {weakest};
        assert units == old(units) - {weakest};
        champions := champions - {u.owner};
      }
      out := ReportBlow(weakest, u.owner, u.hp <= 0.0, prov, at);
      BlowIsRecounted(out, Bout(old(units), champs), weakest, attacker, at);
    }

    /** One round of the fight, unless the weakest champion is not filed under its owner's name. */
    method FightRound(champs: map<string, string>, prov: string, at: int, ghost c: Contest)
      returns (champions: map<string, string>, hung: bool, out: seq<AppliedEvent>, ghost c': Contest, ghost t: string)
      requires LogOk(log, seqNo) && c.Fair() && MayFight(c.First()) && c.now == Bout(units, champs) && |champs| > 1
      modifies this`units, this`seqNo, this`log
      ensures c'.Fair() && c'.First() == c.First() && c'.now == Bout(units, champions)
      ensures hung ==> c' == c && out == [] && !Settles(c.First().Arena()) && Misfiled(c.now, t)
      ensures !hung ==> c'.Rounds() == c.Rounds() + 1
      ensures !hung ==> Toll(ArenaOf(units, champions)) < Toll(ArenaOf(old(units), champs))
      ensures LogOk(log, seqNo) && log == old(log) + out
      ensures Recounts(out, Bout(old(units), champs), Bout(units, champions), if hung then 0 else 1, at)
    {
      hide Settles, Toll, Weakest, StrongestBut, Alive, Unambiguous, Misfiled, RoundBy, Distinct, Recounts;
      RecountsNothing(Bout(units, champs), at);
      ContestIsReady(c);
      var weakest, attacker := PickPair(champs);
      ghost var w, a :| c.now.Picked(w, a) && weakest == champs[w] && attacker == champs[a];
      FiledOrNot(c.now, w, a);
      champions, out, c', t := champs, [], c, w;
      var owner := units[weakest].owner;
      hung := owner !in champs || champs[owner] != weakest;
      if hung {
        a := ContestSticks(c, w);
      } else {
        champions, out := LandBlow(champs, weakest, attacker, prov, at);
        ContestOneMore(c, Bout(units, champions), w, a);
        c' := After(c, Bout(units, champions));
      }
    }

    /** The fight loop.  If it ends, one champion t is left, unhurt, and no champion was stronger
        at the start; every other champion is dead and nobody else was touched; and it took no
        more rounds than the losers could last.  It hangs when the weakest champion t is not
        filed under its owner's name: its death would delete nothing and it would stay the
        weakest for ever (ContestSticks, StuckForever), so the model stops there.  That happens
        only if some champion not so filed is not stronger than all the others. */
    method FightUntilOneStands(champs: map<string, string>, prov: string, at: int)
      returns (champions: map<string, string>, hung: bool, out: seq<AppliedEvent>, ghost t: string, ghost c: Contest)
      requires LogOk(log, seqNo) && MayFight(Bout(units, champs))
      modifies this`units, this`seqNo, this`log
      ensures c.Fair() && c.First() == Bout(old(units), champs) && c.now == Bout(units, champions)
      ensures hung ==> !Settles(c.First().Arena()) && Misfiled(c.now, t)
      ensures !hung ==> Won(old(units), champs, units, champions, t)
      ensures !hung ==> t in c.First().Arena() && c.Rounds() <= LosersToll(c.First().Arena(), t)
      ensures LogOk(log, seqNo) && log == old(log) + out
      ensures Recounts(out, Bout(old(units), champs), Bout(units, champions), c.Rounds(), at)
    {
      hide Settles, Misfiled, Toll, LosersToll, Won, Recounts, MayFight, LogOk, ArenaOf, Round;
      RecountsNothing(Bout(units, champs), at);
      champions, hung, out := champs, false, [];
      c := Opening(Bout(units, champs));
      t := "";
      while |champions| > 1
        invariant LogOk(log, seqNo) && log == old(log) + out
        invariant Recounts(out, Bout(old(units), champs), Bout(units, champions), c.Rounds(), at)
        invariant c.Fair() && c.First() == Bout(old(units), champs) && c.now == Bout(units, champions)
        decreases Toll(ArenaOf(units, champions))
      {
        var blow;
        ghost var before, rounds := Bout(units, champions), c.Rounds();
        champions, hung, blow, c, t := FightRound(champions, prov, at, c);
        if hung {
          return;
        }
        RecountsMore(out, blow, Bout(old(units), champs), before, Bout(units, champions), rounds, 1, at);
        out := out + blow;
      }
      t := ContestOver(c);
    }

    /** The live units at rest in the province, in any order. */
    method StationaryUnitsIn(p: string, at: int) returns (out: seq<string>)
      ensures Elements(out) == Garrison(units, p, at) && Simple(out)
    {
      out := [];
      var rest := units.Keys;
      while rest != {}
        invariant rest <= units.Keys && Simple(out) && Elements(out) == Garrison(units, p, at) - rest
        decreases rest
      {
        var id :| id in rest;
        rest := rest - {id};
        var u := units[id];
        if u.origin == p && u.dest == p && !u.IsMoving(at) && u.hp > 0.0 {
          AppendElement(out, id);
          out := out + [id];
        }
      }
    }

    /** One unit joins the champions collected so far. */
    method PoolUnit(id: string, champs: map<string, string>, allSlots: seq<string>)
      returns (champions: map<string, string>)
      requires Elements(allSlots) == players && id in units && units[id].owner in players
      requires forall k | k in champs :: champs[k] in units
      modifies this`units
      ensures (units, champions)
           == Join(old(units), champs, id, Coals(diplomacy.Value(), players)[old(units)[id].owner])
    {
      hide CoalId;
      var k := CoalitionID(diplomacy, units[id].owner, allSlots);
      var joined := Join(units, champs, id, k);
      units := joined.0;
      champions := joined.1;
    }

    /** The units are pooled in the order in which they are met. */
    method CollapseChampions(stationary: seq<string>) returns (champions: map<string, string>)
      requires Poolable(Coals(diplomacy.Value(), players), units, stationary)
      modifies this`units
      ensures (units, champions) == PoolAll(Coals(diplomacy.Value(), players), old(units), stationary)
    {
      hide CoalId, Pooled, Join;
      var allSlots := SlotIDs();
      ghost var coal := Coals(diplomacy.Value(), players);
      champions := map[];
      for i := 0 to |stationary|
        invariant Poolable(coal, old(units), stationary[..i])
        invariant (units, champions) == PoolAll(coal, old(units), stationary[..i])
      {
        PoolableUpTo(coal, old(units), stationary, i);
        ReadyToJoin(coal, old(units), stationary[..i], stationary[i]);
        champions := PoolUnit(stationary[i], champions, allSlots);
      }
      assert stationary[..|stationary|] == stationary;
    }

    /** The surviving coalition takes the province, unless it already holds it. */
    method CaptureIfOwnerChanged(p: string, champions: map<string, string>, at: int, ghost t: string)
      returns (out: seq<AppliedEvent>)
      requires p in provinces && champions.Keys <= {t} && LogOk(log, seqNo)
      requires t in champions ==> champions[t] in units
      modifies this`provinces, this`seqNo, this`log
      ensures LogOk(log, seqNo) && log == old(log) + out && Quiet(out, at)
      ensures provinces == if t !in champions then old(provinces)
          else Captured(diplomacy.Value(), players, old(provinces), p, units[champions[t]].owner)
      ensures out ==
          if t in champions && Takes(diplomacy.Value(), players, old(provinces), p, units[champions[t]].owner)
          then [AppliedEvent(ProvinceCaptured, at, old(seqNo) + 1, "", p, units[champions[t]].owner)] else []
    {
      hide CoalId;
      out := [];
      if champions.Keys == {} {
        return;
      }
      var k :| k in champions.Keys;
      var winner := units[champions[k]].owner;
      var allSlots := SlotIDs();
      var owner := provinces[p].owner;
      var mine := CoalitionID(diplomacy, winner, allSlots);
      var theirs := "";
      if owner != "" {
        theirs := CoalitionID(diplomacy, owner, allSlots);
        if theirs == mine {
          return;
        }
      }
      provinces := provinces[p := provinces[p].(owner := winner)];
      var capture := Emit(ProvinceCaptured, at, "", p, winner);
      out := [capture];
    }

    /** The champions of a pooled garrison fight it out. */
    method FightPooled(champs: map<string, string>, p: string, at: int, ghost before: UnitTable, ghost s: set<string>)
      returns (champions: map<string, string>, hung: bool, out: seq<AppliedEvent>, ghost t: string)
      requires Stands(Coals(diplomacy.Value(), players), before, s) && LogOk(log, seqNo)
      requires Pooled(Coals(diplomacy.Value(), players), before, s, units, champs)
      modifies this`units, this`seqNo, this`log
      ensures hung ==> Perilous(Coals(diplomacy.Value(), players), before, s)
      ensures LogOk(log, seqNo) && log == old(log) + out && Quiet(out, at) && Count(out, ProvinceCaptured) == 0
      ensures !hung ==> champions.Keys == {t} && champions[t] in units
      ensures !hung ==> Battle(Coals(diplomacy.Value(), players), before, s, units, champions[t])
    {
      hide Won, Battle, Settles, LosersToll, Pooled, CoalId, Perilous;
      ghost var coal, pooled := Coals(diplomacy.Value(), players), units;
      CoalsIdempotent(diplomacy.Value(), players);
      PooledIsNotEmpty(coal, before, s, pooled, champs);
      PooledIsReady(coal, before, s, pooled, champs);
      ghost var c;
      champions, hung, out, t, c := FightUntilOneStands(champs, p, at);
      if hung {
        UnsettledWasPerilous(coal, before, s, pooled, champs);
      } else {
        BattleIsDecided(coal, before, s, pooled, champs, units, champions, t);
      }
    }

    /** Pool the garrison and let the champions fight it out. */
    method PoolAndFight(stationary: seq<string>, p: string, at: int)
      returns (champions: map<string, string>, hung: bool, out: seq<AppliedEvent>, ghost t: string)
      requires Orders(stationary, Garrison(units, p, at))
      requires (forall id | id in units :: units[id].owner in players) && LogOk(log, seqNo)
      modifies this`units, this`seqNo, this`log
      ensures hung ==> PerilAt(diplomacy.Value(), players, old(units), p, at)
      ensures LogOk(log, seqNo) && log == old(log) + out && Quiet(out, at) && Count(out, ProvinceCaptured) == 0
      ensures !hung ==> champions.Keys == {t} && champions[t] in units
      ensures !hung ==>
          Battle(Coals(diplomacy.Value(), players), old(units), Garrison(old(units), p, at), units, champions[t])
    {
      hide Pooled, Battle, CoalId, Perilous;
      GarrisonStands(diplomacy.Value(), players, units, p, at);
      ghost var before, s := units, Garrison(units, p, at);
      champions := CollapseChampions(stationary);
      champions, hung, out, t := FightPooled(champions, p, at, before, s);
    }

    /** Combat over an occupied province: pool, fight, capture. */
    method ResolveGarrison(stationary: seq<string>, p: string, at: int)
      returns (hung: bool, out: seq<AppliedEvent>, ghost w: string)
      requires Orders(stationary, Garrison(units, p, at))
      requires p in provinces && (forall id | id in units :: units[id].owner in players) && LogOk(log, seqNo)
      modifies this`units, this`provinces, this`seqNo, this`log
      ensures hung ==> PerilAt(diplomacy.Value(), players, old(units), p, at)
      ensures LogOk(log, seqNo) && log == old(log) + out && Quiet(out, at)
      ensures !hung ==> Battle(Coals(diplomacy.Value(), players), old(units), Garrison(old(units), p, at), units, w)
      ensures !hung ==> provinces == Captured(diplomacy.Value(), players, old(provinces), p, units[w].owner)
      ensures !hung ==> Heralds(diplomacy.Value(), players, old(units), old(provinces), units, p, at, w, out)
    {
      var champions;
      ghost var t;
      champions, hung, out, t := PoolAndFight(stationary, p, at);
      w := "";
      if !hung {
        w := champions[t];
        var capture := CaptureIfOwnerChanged(p, champions, at, t);
        QuietJoins(old(log), out, capture, at);
        ProclaimedLast(out, capture, p, units[w].owner);
        out := out + capture;
      }
    }

    /** Combat in a province. */
    method ResolveProvince(p: string, at: int) returns (hung: bool, out: seq<AppliedEvent>, ghost w: string)
      requires p in provinces && RosterOk(units, provinces, players) && LogOk(log, seqNo)
      modifies this`units, this`provinces, this`seqNo, this`log
      ensures hung ==> PerilAt(diplomacy.Value(), players, old(units), p, at)
      ensures LogOk(log, seqNo) && log == old(log) + out && Quiet(out, at)
      ensures !hung ==> Resolved(diplomacy.Value(), players, old(units), old(provinces), units, provinces, p, at, w)
      ensures !hung ==> Heralds(diplomacy.Value(), players, old(units), old(provinces), units, p, at, w, out)
    {
      var stationary := StationaryUnitsIn(p, at);
      EmptyElements(stationary);
      if |stationary| == 0 {
        hung, out, w := false, [], "";
      } else {
        hung, out, w := ResolveGarrison(stationary, p, at);
      }
    }

    // ---------- victory ----------

    /** The slots that own a capital. */
    method CapitalSlots() returns (slots: set<string>)
      ensures slots == CapitalOwners(provinces)
    {
      slots := {};
      var rest := provinces.Keys;
      while rest != {}
        invariant rest <= provinces.Keys
        invariant slots == set p | p in provinces && p !in rest && provinces[p].capital && provinces[p].owner != "" ::
            provinces[p].owner
        decreases rest
      {
        var p :| p in rest;
        ghost var before := rest;
        rest := rest - {p};
        assert forall q | q in provinces :: q !in rest <==> q !in before || q == p;
        if provinces[p].capital && provinces[p].owner != "" {
          slots := slots + {provinces[p].owner};
        }
      }
    }

    /** The coalitions of some slots, by their ids. */
    method CoalitionsOf(slots: set<string>) returns (coalitions: map<string, set<string>>)
      ensures forall s | s in slots :: CoalId(diplomacy.Value(), players, s) in coalitions
      ensures forall k | k in coalitions :: exists s ::
          IdentifiedBy(diplomacy.Value(), players, slots, k, coalitions[k], s)
    {
      var allSlots := SlotIDs();
      coalitions := map[];
      var rest := slots;
      while rest != {}
        invariant rest <= slots
        invariant forall s | s in slots && s !in rest :: CoalId(diplomacy.Value(), players, s) in coalitions
        invariant forall k | k in coalitions :: exists s ::
            IdentifiedBy(diplomacy.Value(), players, slots, k, coalitions[k], s)
        decreases rest
      {
        var s :| s in rest;
        rest := rest - {s};
        var id := CoalitionID(diplomacy, s, allSlots);
        if id !in coalitions {
          var members := Coalition(diplomacy, s, allSlots);
          ghost var before := coalitions;
          coalitions := coalitions[id := members];
          assert IdentifiedBy(diplomacy.Value(), players, slots, id, members, s);
        }
      }
    }

    /** Whether one coalition holds every owned capital, its id, and the sorted capital owners. */
    method Winner() returns (decided: bool, coalID: string, winners: seq<string>)
      requires RosterOk(units, provinces, players)
      ensures decided <==> Decided(diplomacy.Value(), players, CapitalOwners(provinces))
      ensures decided ==> Wins(diplomacy.Value(), players, CapitalOwners(provinces), coalID, winners)
    {
      decided, coalID, winners := false, "", [];
      var capitalSlots := CapitalSlots();
      if |capitalSlots| == 0 {
        return;
      }
      var coalitions := CoalitionsOf(capitalSlots);
      if |coalitions| != 1 {
        ManyCoalitions(diplomacy.Value(), players, capitalSlots, coalitions);
        return;
      }
      coalID :| coalID in coalitions.Keys;
      var members := coalitions[coalID];
      CapitalOwnersArePlayers(provinces, players);
      OneCoalitionWins(diplomacy.Value(), players, capitalSlots, coalitions, coalID);
      winners := SortedKeys(members * capitalSlots);
      decided := true;
    }

    /** Record the winners and announce them. */
    method Announce(at: int, coalID: string, winners: seq<string>) returns (r: AppliedEvent)
      requires LogOk(log, seqNo)
      modifies this`active, this`winnerSlot, this`winnerCoal, this`seqNo, this`log
      ensures !active && winnerSlot == coalID && winnerCoal == winners
      ensures LogOk(log, seqNo) && seqNo == old(seqNo) + 1 && log == old(log) + [r]
      ensures r == AppliedEvent(MatchEnded, at, seqNo, "", "", coalID)
    {
      active, winnerSlot, winnerCoal := false, coalID, winners;
      r := Emit(MatchEnded, at, "", "", coalID);
    }

    /** The match is over: it is announced, and its cleanup is scheduled. */
    method EndMatch(at: int, coalID: string, winners: seq<string>) returns (ghost e: Event)
      requires Core() && active
      modifies this`active, this`winnerSlot, this`winnerCoal, this`seqNo, this`log, timeline, timeline.heap
      ensures Core() && !active && winnerSlot == coalID && winnerCoal == winners
      ensures log == old(log) + [AppliedEvent(MatchEnded, at, old(seqNo) + 1, "", "", coalID)]
      ensures timeline.pending == old(timeline.pending) + {e} && e.kind == MatchCleanup && e.at == at + CLEANUP_DELAY
    {
      hide Timeline.Valid, Attainable;
      NumbersAreRight(Present());
      ghost var before := Present();
      e := timeline.Push(at + CLEANUP_DELAY, MatchCleanup, "", 0);
      var r := Announce(at, coalID, winners);
      Ends(before, r, e);
    }

    /** The match ends, once, when all capital owners belong to one coalition. */
    method CheckVictory(at: int)
      requires Core()
      modifies this`active, this`winnerSlot, this`winnerCoal, this`seqNo, this`log, timeline, timeline.heap
      ensures Core() && Told(old(log), log, at)
      ensures Posted(units, old(timeline.pending), timeline.pending, 1, at + MILLISECOND)
      ensures Judged(diplomacy.Value(), players, provinces, old(Verdict()), Verdict(), timeline.pending, log, at)
      ensures active == old(active) ==> log == old(log)
    {
      hide Timeline.Valid, Attainable, Decided, Wins, CapitalOwners;
      PostedNothing(units, timeline.pending, 1, at + MILLISECOND);
      if active {
        TheRosterIsRight(Present());
        var decided, coalID, winners := Winner();
        if decided {
          NumbersAreRight(Present());
          ghost var e := EndMatch(at, coalID, winners);
          PostedOne(units, old(timeline.pending), e, at + MILLISECOND);
          NumbersAreRight(Present());
        }
      }
    }

    // ---------- movement ----------

    /** Report something other than the end of the match. */
    method Report(kind: AppliedKind, at: int, unitID: string, province: string, slot: string)
      requires Core() && kind != MatchEnded && kind != MatchCleaned
      modifies this`log, this`seqNo
      ensures Core() && log == old(log) + [AppliedEvent(kind, at, old(seqNo) + 1, unitID, province, slot)]
      ensures seqNo == old(seqNo) + 1 && Snap() == old(Snap()).(a := old(Present()).(log := log, seqNo := seqNo))
    {
      hide Timeline.Valid, Attainable;
      NumbersAreRight(Present());
      var r := Emit(kind, at, unitID, province, slot);
      Goes(old(Present()), Tell([r], at));
    }

    /** Combat in a province, as a step of the match. */
    method Combat(p: string, at: int) returns (hung: bool, ghost w: string)
      requires Core() && p in provinces
      modifies this`units, this`provinces, this`seqNo, this`log
      ensures hung ==> PerilAt(diplomacy.Value(), players, old(units), p, at)
      ensures !hung ==> Core() && Told(old(log), log, at) && Trimmed(old(units), units)
      ensures !hung ==> Resolved(diplomacy.Value(), players, old(units), old(provinces), units, provinces, p, at, w)
    {
      hide Timeline.Valid, Attainable, Resolved, PerilAt, Heralds, Quiet, Told, Trimmed, RosterOk;
      NumbersAreRight(Present());
      TheRosterIsRight(Present());
      var out;
      hung, out, w := ResolveProvince(p, at);
      if !hung {
        CombatKeepsRoster(diplomacy.Value(), players, old(units), old(provinces), units, provinces, p, at, w);
        LosesUnits(old(Present()), units, provinces, out, at);
        ToldQuietly(old(log), out, at);
      }
    }

    /** Combat where a leg ended, if that is a province, and a look at who has won. */
    method ResolveAndCheck(p: string, at: int) returns (hung: bool)
      requires Core()
      modifies this`units, this`provinces, this`active, this`winnerSlot, this`winnerCoal, this`seqNo, this`log,
               timeline, timeline.heap
      ensures hung ==> p in old(provinces) && PerilAt(diplomacy.Value(), players, old(units), p, at)
      ensures !hung ==> Core() && Told(old(log), log, at) && Trimmed(old(units), units)
      ensures !hung ==> Posted(units, old(timeline.pending), timeline.pending, 1, at + MILLISECOND)
      ensures !hung ==> Contested(diplomacy.Value(), players, old(units), old(provinces), units, provinces, p, at)
      ensures !hung ==>
          Judged(diplomacy.Value(), players, provinces, old(Verdict()), Verdict(), timeline.pending, log, at)
    {
      hide Timeline.Valid, Attainable, Resolved, Told, Posted, Judged, PerilAt;
      hung := false;
      ToldNothing(log, at);
      if p in provinces {
        ghost var w;
        hung, w := Combat(p, at);
        if hung {
          return;
        }
      }
      ghost var told := log;
      CheckVictory(at);
      ToldTwice(old(log), told, log, at);
    }

    /** The waypoints of a unit change, and nothing else. */
    method Replan(id: string, waypoints: seq<Target>)
      requires Core() && id in units
      modifies this`units
      ensures Core() && units == old(units)[id := old(units)[id].(waypoints := waypoints)]
    {
      hide Timeline.Valid, Attainable;
      units := units[id := units[id].(waypoints := waypoints)];
      Goes(old(Present()), Plan(id, waypoints));
    }

    /** u, as changed so far, replaces its record, and stays where it is. */
    method Rest(u: Unit)
      requires Core() && MayReplace(units, busy, u) && u.WellFormed() && !u.HasLeg()
      modifies this`units, this`busy, this`stranded
      ensures Core() && units == old(units)[u.id := u] && busy == {} && stranded == old(stranded) - {u.id}
    {
      hide Timeline.Valid, Attainable;
      units, busy, stranded := units[u.id := u], {}, stranded - {u.id};
      ComesToRest(old(Present()), u);
    }

    /** u, as changed so far, replaces its record; its leg has ended, but nobody will notice. */
    method RunAground(u: Unit)
      requires Core() && MayReplace(units, busy, u) && u.WellFormed()
      requires u.HasLeg() && u.CurrentLeg().arrivesAt <= gameNow
      modifies this`units, this`busy, this`stranded
      ensures Core() && units == old(units)[u.id := u] && busy == {} && stranded == old(stranded) + {u.id}
    {
      hide Timeline.Valid, Attainable;
      units, busy, stranded := units[u.id := u], {}, stranded - {u.id} + {u.id};
      RunsAground(old(Present()), u);
    }

    /** u, as changed so far, replaces its record, and its next arrival is scheduled. */
    method Embark(u: Unit)
      requires Core() && MayReplace(units, busy, u) && u.WellFormed() && u.HasLeg()
      modifies this`units, this`busy, this`stranded, timeline, timeline.heap
      ensures Core() && units == old(units)[u.id := u] && busy == {} && stranded == old(stranded) - {u.id}
      ensures Posted(units, old(timeline.pending), timeline.pending, 1, u.arrivesAt)
    {
      hide Timeline.Valid, Attainable;
      ghost var before := Present();
      ghost var e := timeline.Push(u.arrivesAt, Arrival, u.id, u.version);
      SetsOut(before, u, e);
      units, busy, stranded := units[u.id := u], {}, stranded - {u.id};
      PostedOne(units, old(timeline.pending), e, u.arrivesAt);
    }

    /** SetUnitPath: lay the legs out in time from now, and set out on the first. */
    method SetUnitPath(u: Unit, legs: seq<Leg>, now: int)
      requires Core() && MayReplace(units, busy, u) && Chained(legs) && legs != []
      modifies this`units, this`busy, this`stranded, timeline, timeline.heap
      ensures Core() && busy == {} && stranded == old(stranded) - {u.id}
      ensures units == old(units)[u.id := WithPath(u, Schedule(graph.hypot, u.speed, legs, now), now)]
      ensures Posted(units, old(timeline.pending), timeline.pending, 1, now + MILLISECOND)
    {
      hide Timeline.Valid, Attainable, Posted, Schedule;
      var scheduled := LayOut(graph.hypot, u.speed, legs, now);
      ScheduleIsSound(graph.hypot, u.speed, legs, now);
      NewPathIsContinuous(u, scheduled, now);
      var v := WithPath(u, scheduled, now);
      Embark(v);
      PostedLater(units, old(timeline.pending), timeline.pending, 1, v.arrivesAt, now + MILLISECOND);
    }

    /** RouteBlocked: diplomacy bars some leg of the route. */
    method RouteBlocked(mover: string, legs: seq<Leg>) returns (blocked: bool)
      ensures blocked <==> Barred(diplomacy.Value(), provinces, mover, legs)
    {
      for i := 0 to |legs|
        invariant forall k | 0 <= k < i :: !LegBlocked(diplomacy.Value(), provinces, mover, legs[k].toProv)
      {
        if LegBlocked(diplomacy.Value(), provinces, mover, legs[i].toProv) {
          return true;
        }
      }
      blocked := false;
    }

    /** A shortest way for u from where it is to the target, unless there is none or diplomacy bars it. */
    method FindRoute(u: Unit, from: Vec, target: Target) returns (p: Passage)
      requires graph.Sound()
      ensures match p
              case Open(legs) => Routed(diplomacy.Value(), graph, provinces, u, from, target, legs)
              case NoWay => Answered(graph, u, from, target, NoRoute)
              case Closed => ShutOut(diplomacy.Value(), graph, provinces, u, from, target)
    {
      hide Answers, Barred, StartsAt;
      p := NoWay;
      var r := RouteFromEdge(graph, from, u.origin, u.dest, target);
      if r.Legs? {
        var blocked := RouteBlocked(u.owner, r.legs);
        p := if blocked then Closed else Open(r.legs);
      }
    }

    /** StartNextWaypoint: route an idle unit to its next waypoint.  The waypoint is used up even
        when there is no way to it; v is the unit as it is then. */
    method StartNextWaypoint(u: Unit, now: int) returns (ok: bool, v: Unit)
      requires Core() && MayReplace(units, busy, u) && graph.Sound()
      modifies this`units, this`busy, this`stranded, timeline, timeline.heap
      ensures !ok ==> Core() && busy == old(busy) && units == old(units) && timeline.pending == old(timeline.pending)
      ensures stranded == if ok then old(stranded) - {u.id} else old(stranded)
      ensures !ok ==> Stays(diplomacy.Value(), graph, provinces, u, now, v)
      ensures ok ==> Core() && busy == {} && units == old(units)[u.id := v]
      ensures ok ==> u.waypoints != [] && !u.IsMoving(now)
      ensures ok ==> Departs(diplomacy.Value(), graph, provinces, u.(waypoints := u.waypoints[1..]), u.originPos,
          u.waypoints[0], now, v)
      ensures Posted(units, old(timeline.pending), timeline.pending, 1, now + MILLISECOND)
    {
      hide Timeline.Valid, Attainable, Posted, Schedule, Answers, StartsAt, ShutOut, Barred, Graph.Sound;
      ok, v := false, u;
      PostedNothing(units, timeline.pending, 1, now + MILLISECOND);
      if |u.waypoints| == 0 || u.IsMoving(now) {
        return;
      }
      v := u.(waypoints := u.waypoints[1..]);
      var p := FindRoute(u, u.originPos, u.waypoints[0]);
      if p.Open? {
        RoutesCanBeLaid(diplomacy.Value(), graph, provinces, v, u.originPos, u.waypoints[0], p.legs, now);
        SetUnitPath(v, p.legs, now);
        ok, v := true, units[u.id];
      }
    }

    /** hostileUnitOnLeg: whether an enemy is met on the leg just travelled. */
    method HostileUnitOnLeg(u: Unit, leg: PathLeg, at: int) returns (met: bool)
      ensures met <==> exists id :: id in units && Threatens(diplomacy.Value(), graph.hypot, u, leg, units[id], at)
    {
      var rest := units.Keys;
      while rest != {}
        invariant rest <= units.Keys
        invariant forall id | id in units && id !in rest ::
            !Threatens(diplomacy.Value(), graph.hypot, u, leg, units[id], at)
        decreases rest
      {
        var id :| id in rest;
        if Threatens(diplomacy.Value(), graph.hypot, u, leg, units[id], at) {
          return true;
        }
        rest := rest - {id};
      }
      met := false;
    }

    /** The leg ended in hostile territory or next to an enemy: the unit drops its plans and there
        is combat. */
    method Clash(u: Unit, p: string, at: int) returns (hung: bool)
      requires Core() && LegEnds(units, busy, u, at)
      modifies this`units, this`provinces, this`busy, this`stranded, this`active, this`winnerSlot, this`winnerCoal,
               this`seqNo, this`log,
               timeline, timeline.heap
      ensures hung ==> p in old(provinces)
      ensures hung ==> PerilAt(diplomacy.Value(), players, old(units)[u.id := Stopped(EndLeg(u, at))], p, at)
      ensures !hung ==> Core() && busy == {} && stranded == old(stranded) - {u.id} && Told(old(log), log, at)
      ensures !hung ==> Unmoved(old(units), units, at)
      ensures !hung ==> Posted(units, old(timeline.pending), timeline.pending, 1, at + MILLISECOND)
      ensures !hung ==>
          Contested(diplomacy.Value(), players, old(units)[u.id := Stopped(EndLeg(u, at))], old(provinces),
                               units, provinces, p, at)
      ensures !hung ==>
          Judged(diplomacy.Value(), players, provinces, old(Verdict()), Verdict(), timeline.pending, log, at)
    {
      hide Timeline.Valid, Attainable, Told, Posted, Trimmed, Unmoved, Contested, Judged, PerilAt;
      UnitsMoveByTheBook(Present(), u.id);
      var v := Stopped(EndLeg(u, at));
      StoppingIsContinuous(units, u, at);
      Rest(v);
      ghost var rested := units;
      hung := ResolveAndCheck(p, at);
      if !hung {
        TrimmingKeepsPlaces(rested, units, at);
        UnmovedTwice(old(units), rested, units, at);
      }
    }

    /** The unit goes on to the next leg of its path. */
    method Proceed(u: Unit, at: int)
      requires Core() && LegEnds(units, busy, u, at) && u.pathIndex + 1 < |u.path|
      modifies this`units, this`busy, this`stranded, this`active, this`winnerSlot, this`winnerCoal, this`seqNo,
               this`log, timeline, timeline.heap
      ensures Core() && busy == {} && stranded == old(stranded) - {u.id} && Told(old(log), log, at)
      ensures units == old(units)[u.id := NextLeg(u, at)] && Unmoved(old(units), units, at)
      ensures Posted(units, old(timeline.pending), timeline.pending, 2, at + MILLISECOND)
      ensures Judged(diplomacy.Value(), players, provinces, old(Verdict()), Verdict(), timeline.pending, log, at)
    {
      hide Timeline.Valid, Attainable, Told, Posted, Unmoved, Judged;
      UnitsMoveByTheBook(Present(), u.id);
      var v := NextLeg(u, at);
      ProceedingIsContinuous(units, u, at);
      Embark(v);
      ghost var pending := timeline.pending;
      PostedLater(units, old(timeline.pending), pending, 1, v.arrivesAt, at + MILLISECOND);
      CheckVictory(at);
      PostedTogether(units, old(timeline.pending), pending, timeline.pending, 1, 1, at + MILLISECOND);
    }

    /** The unit, whose path has ended and which has nowhere else to go, stays and fights for the
        province. */
    method Stay(u: Unit, v: Unit, p: string, at: int) returns (hung: bool)
      requires Core() && LegEnds(units, busy, u, at)
      requires Stays(diplomacy.Value(), graph, provinces, Halted(EndLeg(u, at)), at, v)
      modifies this`units, this`provinces, this`busy, this`stranded, this`active, this`winnerSlot, this`winnerCoal,
               this`seqNo, this`log,
               timeline, timeline.heap
      ensures hung ==> p in old(provinces)
      ensures hung ==> PerilAt(diplomacy.Value(), players, old(units)[u.id := Stopped(EndLeg(u, at))], p, at)
      ensures !hung ==> Core() && busy == {} && stranded == old(stranded) - {u.id} && Told(old(log), log, at)
      ensures !hung ==> Unmoved(old(units), units, at)
      ensures !hung ==> Posted(units, old(timeline.pending), timeline.pending, 1, at + MILLISECOND)
      ensures !hung ==>
          Contested(diplomacy.Value(), players, old(units)[u.id := v], old(provinces), units, provinces, p, at)
      ensures !hung ==>
          Judged(diplomacy.Value(), players, provinces, old(Verdict()), Verdict(), timeline.pending, log, at)
    {
      hide Timeline.Valid, Attainable, Told, Posted, Trimmed, Unmoved, Stays, Contested, Judged, PerilAt;
      UnitsMoveByTheBook(Present(), u.id);
      StayingIsContinuous(diplomacy.Value(), graph, provinces, units, u, at, v);
      Rest(v);
      ghost var rested := units;
      hung := ResolveAndCheck(p, at);
      if hung {
        PerilIgnoresPlans(diplomacy.Value(), players, old(units), v, Stopped(EndLeg(u, at)), p, at);
      } else {
        TrimmingKeepsPlaces(rested, units, at);
        UnmovedTwice(old(units), rested, units, at);
      }
    }

    /** The unit, whose path has ended in p, sets out for its next waypoint if it can. */
    method SetOut(u: Unit, ghost p: string, at: int) returns (ok: bool, v: Unit)
      requires Core() && LegEnds(units, busy, u, at) && graph.Sound()
      modifies this`units, this`busy, this`stranded, timeline, timeline.heap
      ensures !ok ==> Core() && busy == old(busy) && units == old(units) && timeline.pending == old(timeline.pending)
      ensures !ok ==> Stays(diplomacy.Value(), graph, provinces, Halted(EndLeg(u, at)), at, v)
      ensures stranded == if ok then old(stranded) - {u.id} else old(stranded)
      ensures ok ==> Core() && busy == {} && units == old(units)[u.id := v] && Unmoved(old(units), units, at)
      ensures ok ==> Concludes(diplomacy.Value(), graph, players, old(units), provinces, units, provinces, u, p, at, v)
      ensures Posted(units, old(timeline.pending), timeline.pending, 1, at + MILLISECOND)
    {
      hide Timeline.Valid, Attainable, Posted, Unmoved, Departs, Stays, Contested, Concludes, Graph.Sound;
      UnitsMoveByTheBook(Present(), u.id);
      ok, v := StartNextWaypoint(Halted(EndLeg(u, at)), at);
      if ok {
        SettingOutIsContinuous(diplomacy.Value(), graph, provinces, old(units), u, at, v);
        DepartingConcludes(diplomacy.Value(), graph, players, old(units), provinces, u, p, at, v);
      }
    }

    /** The unit has reached the end of its path: it sets out for its next waypoint, or stays. */
    method ReachGoal(u: Unit, p: string, at: int) returns (hung: bool, ghost v: Unit)
      requires Core() && LegEnds(units, busy, u, at) && graph.Sound()
      modifies this`units, this`provinces, this`busy, this`stranded, this`active, this`winnerSlot, this`winnerCoal,
               this`seqNo, this`log,
               timeline, timeline.heap
      ensures hung ==> p in old(provinces)
      ensures hung ==> PerilAt(diplomacy.Value(), players, old(units)[u.id := Stopped(EndLeg(u, at))], p, at)
      ensures hung ==> Stays(diplomacy.Value(), graph, old(provinces), Halted(EndLeg(u, at)), at, v)
      ensures !hung ==> Core() && busy == {} && stranded == old(stranded) - {u.id} && Told(old(log), log, at)
      ensures !hung ==> Unmoved(old(units), units, at)
      ensures !hung ==> Posted(units, old(timeline.pending), timeline.pending, 2, at + MILLISECOND)
      ensures !hung ==>
          Concludes(diplomacy.Value(), graph, players, old(units), old(provinces), units, provinces, u, p, at, v)
      ensures !hung ==>
          Judged(diplomacy.Value(), players, provinces, old(Verdict()), Verdict(), timeline.pending, log, at)
    {
      hide Timeline.Valid, Attainable, Stopped, Halted, EndLeg, Told, Posted, Unmoved, Stays, Contested, Concludes,
           Judged, Graph.Sound, PerilAt;
      var ok, next := SetOut(u, p, at);
      v := next;
      ghost var pending := timeline.pending;
      if ok {
        hung := false;
        CheckVictory(at);
      } else {
        hung := Stay(u, next, p, at);
        if !hung {
          StayingConcludes(diplomacy.Value(), graph, players, old(units), old(provinces), units, provinces, u, p, at,
              v);
        }
      }
      if !hung {
        PostedTogether(units, old(timeline.pending), pending, timeline.pending, 1, 1, at + MILLISECOND);
      }
    }

    /** Whether the leg that u has completed ends among enemies. */
    method EndsAmongEnemies(u: Unit, at: int) returns (hostile: bool)
      requires u.HasLeg()
      ensures hostile <==> MeetsEnemy(diplomacy.Value(), graph.hypot, units, provinces, u, at)
    {
      hide Threatens;
      hostile := HostileEnd(diplomacy.Value(), provinces, u.owner, u.CurrentLeg().toProv);
      if !hostile {
        hostile := HostileUnitOnLeg(EndLeg(u, at), u.CurrentLeg(), at);
      }
    }

    /** The unit clashes, goes on, or has reached its goal. */
    method Continue(u: Unit, at: int) returns (hung: bool)
      requires Core() && LegEnds(units, busy, u, at) && graph.Sound()
      modifies this`units, this`provinces, this`busy, this`stranded, this`active, this`winnerSlot, this`winnerCoal,
               this`seqNo, this`log,
               timeline, timeline.heap
      ensures hung ==> EndsInPeril(diplomacy.Value(), graph, players, old(units), old(provinces), u, at)
      ensures !hung ==> Core() && busy == {} && stranded == old(stranded) - {u.id} && Told(old(log), log, at)
      ensures !hung ==> Unmoved(old(units), units, at)
      ensures !hung ==> Posted(units, old(timeline.pending), timeline.pending, 2, at + MILLISECOND)
      ensures !hung ==> LegDone(diplomacy.Value(), graph, players, old(units), old(provinces), units, provinces, u, at)
      ensures !hung ==>
          Judged(diplomacy.Value(), players, provinces, old(Verdict()), Verdict(), timeline.pending, log, at)
    {
      hide Timeline.Valid, Attainable, Told, Posted, Unmoved, Graph.Sound, MeetsEnemy, Contested, Concludes, Judged,
           PerilAt, Stays, NextLeg, Stopped;
      hung := false;
      var hostile := EndsAmongEnemies(u, at);
      if hostile {
        hung := Clash(u, u.CurrentLeg().toProv, at);
        if !hung {
          PostedMore(units, old(timeline.pending), timeline.pending, 1, 2, at + MILLISECOND);
        }
      } else if u.pathIndex + 1 < |u.path| {
        Proceed(u, at);
      } else {
        ghost var v;
        hung, v := ReachGoal(u, u.CurrentLeg().toProv, at);
      }
    }

    /** CompleteUnitLeg: the unit is where its leg ends; it reports that, and then clashes, goes
        on, or has reached its goal. */
    method CompleteUnitLeg(u: Unit, at: int) returns (hung: bool)
      requires Core() && LegEnds(units, busy, u, at) && graph.Sound()
      modifies this`units, this`provinces, this`busy, this`stranded, this`active, this`winnerSlot, this`winnerCoal,
               this`seqNo, this`log,
               timeline, timeline.heap
      ensures hung ==> EndsInPeril(diplomacy.Value(), graph, players, old(units), old(provinces), u, at)
      ensures !hung ==> Core() && busy == {} && stranded == old(stranded) - {u.id} && Told(old(log), log, at)
      ensures !hung ==> Unmoved(old(units), units, at)
      ensures !hung ==> Posted(units, old(timeline.pending), timeline.pending, 2, at + MILLISECOND)
      ensures !hung ==> LegDone(diplomacy.Value(), graph, players, old(units), old(provinces), units, provinces, u, at)
      ensures !hung ==>
          Judged(diplomacy.Value(), players, provinces, old(Verdict()), Verdict(), timeline.pending, log, at)
      ensures !hung ==> Reports(log, |old(log)|, u, at)
    {
      hide Timeline.Valid, Attainable, Told, Posted, Unmoved, Graph.Sound, LegDone, Judged, EndsInPeril;
      Report(Arrived, at, u.id, u.CurrentLeg().toProv, u.owner);
      ghost var told := log;
      ToldOne(old(log), told[|told| - 1]);
      hung := Continue(u, at);
      if !hung {
        TheFirstReport(old(log), told, log, at);
        ToldTwice(old(log), told, log, at);
      }
    }

    // ---------- event handlers ----------

    /** e has just been taken off the queue, and nothing has been done about it yet. */
    ghost predicate Held(e: Event)
      reads this, timeline, timeline.heap
    {
      && timeline.Valid() && busy == {} && e !in timeline.pending
      && Attainable(Present().(pending := timeline.pending + {e}))
    }

    /** Every player has a stockpile, and nobody is in debt. */
    ghost predicate Solvent()
      reads this`resources
    {
      resources.Keys == players && forall s {:trigger resources[s]} | s in resources :: resources[s].NonNegative()
    }

    /** The arrival that a unit was waiting for ends its leg. */
    method EndTheLeg(u: Unit, ghost e: Event, at: int) returns (hung: bool)
      requires Core() && graph.Sound() && e.kind == Arrival && e.at == at && Current(units, e)
      requires u.id == e.unitID && LegEnds(units, busy, u, at)
      modifies this`units, this`provinces, this`busy, this`stranded, this`active, this`winnerSlot, this`winnerCoal,
               this`seqNo, this`log, timeline, timeline.heap
      ensures hung ==> EndsInPeril(diplomacy.Value(), graph, players, old(units), old(provinces), u, at)
      ensures !hung ==> Core() && busy == {} && LegEnded(graph, old(Snap()), e, Snap())
    {
      hide Timeline.Valid, Attainable, Told, Posted, Unmoved, Graph.Sound, LegDone, Judged, Reports, EndsInPeril;
      TheBusyAreNotStranded(Present());
      hung := CompleteUnitLeg(u, at);
      assert unchanged(this`resources, this`buildings, this`nextRecruit, this`nextBuild, this`cleanupDone, this`ids,
          this`paid, this`delivered, this`refunded, this`gameNow);
    }

    /** arrivalHandler.  A stale arrival changes nothing; any other one ends the unit's leg. */
    method Arrive(e: Event) returns (hung: bool)
      requires Held(e) && e.kind == Arrival && graph.Sound()
      modifies this`units, this`provinces, this`busy, this`stranded, this`active, this`winnerSlot, this`winnerCoal,
               this`seqNo, this`log, timeline, timeline.heap
      ensures hung ==> Current(old(units), e)
      ensures hung ==>
          EndsInPeril(diplomacy.Value(), graph, players, old(units), old(provinces), old(units)[e.unitID], e.at)
      ensures !hung ==> Core() && Handles(graph, old(Snap()), e, Snap())
      ensures !Current(old(units), e) ==> !hung
    {
      hide Timeline.Valid, Attainable, Graph.Sound, LegEnded, EndsInPeril;
      ghost var held := Present().(pending := timeline.pending + {e});
      Goes(held, TakeArrival(e));
      assert timeline.pending + {e} - {e} == timeline.pending;
      if e.unitID !in units || units[e.unitID].version != e.version {
        hung := false;
        return;
      }
      CurrentArrivalEndsLeg(held, e);
      var u := units[e.unitID];
      if |u.path| == 0 {
        assert false;
      }
      busy := {e.unitID};
      assert Snap() == old(Snap()).(a := old(Present()).(busy := {e.unitID}));
      hung := EndTheLeg(u, e, e.at);
      if !hung {
        HandlingOneArrival(graph, old(Snap()), {e.unitID}, e, Snap());
      }
    }

    /** victoryCheckHandler. */
    method CheckVictoryNow(e: Event)
      requires Held(e) && e.kind == VictoryCheck
      modifies this`active, this`winnerSlot, this`winnerCoal, this`seqNo, this`log, timeline, timeline.heap
      ensures Core() && Told(old(log), log, e.at) && VictoryChecked(old(Snap()), e, Snap())
    {
      hide Timeline.Valid, Attainable, Told, Posted, Judged;
      Goes(Present().(pending := timeline.pending + {e}), TakeNeutral(e));
      assert timeline.pending + {e} - {e} == timeline.pending;
      CheckVictory(e.at);
      assert unchanged(this`provinces, this`units, this`resources, this`buildings, this`nextRecruit, this`nextBuild,
          this`cleanupDone, this`ids, this`busy, this`stranded, this`paid, this`delivered, this`refunded, this`gameNow);
    }

    /** matchCleanupHandler: over a whole match it acts once. */
    method CleanUpMatch(e: Event)
      requires Held(e) && e.kind == MatchCleanup
      modifies this`cleanupDone, this`seqNo, this`log
      ensures Core() && !old(cleanupDone) && !active && CleanedUp(old(Snap()), e, Snap())
    {
      hide Timeline.Valid, Attainable;
      ghost var held := Present().(pending := timeline.pending + {e});
      CleanupComesOnce(held, e);
      if cleanupDone {
        assert false;
      }
      NumbersAreRight(held);
      cleanupDone := true;
      var r := Emit(MatchCleaned, e.at, "", "", "");
      Goes(held, CleanUp(e, r));
      assert timeline.pending + {e} - {e} == timeline.pending;
    }

    /** One slot is paid its revenue, and it is reported. */
    method PaySlot(slot: string, at: int)
      requires Core() && Solvent() && slot in resources
      modifies this`resources, this`log, this`seqNo
      ensures Core() && Solvent() && log == old(log) + [AppliedEvent(Pulse, at, old(seqNo) + 1, "", "", slot)]
      ensures resources == old(resources)[slot := old(resources)[slot].Plus(Revenue(provinces, buildings, slot))]
    {
      hide Timeline.Valid, Attainable, Revenue;
      var rev := MacroPulseRevenue(provinces, buildings, slot);
      resources := resources[slot := resources[slot].Plus(rev)];
      Report(Pulse, at, "", "", slot);
    }

    /** How far the loop of macroPulseHandler has come: the slots in `rest` are still to be paid. */
    ghost predicate Paying(banks: map<string, Resources>, start: seq<AppliedEvent>, at: int, done: set<string>,
        rest: set<string>)
      reads this
    {
      && done + rest == players == resources.Keys && done !! rest
      && Pulsed(start, log, at, done) && Paid(banks, resources, provinces, buildings, rest)
    }

    /** One more slot is paid. */
    method PayNext(rest: set<string>, at: int, ghost banks: map<string, Resources>, ghost start: seq<AppliedEvent>,
        ghost done: set<string>)
      returns (rest': set<string>, ghost done': set<string>)
      requires Core() && Solvent() && Paying(banks, start, at, done, rest) && rest != {}
      modifies this`resources, this`log, this`seqNo
      ensures Core() && Solvent() && Paying(banks, start, at, done', rest') && rest' < rest
    {
      hide Timeline.Valid, Attainable, Revenue, Pulsed, Paid, Solvent;
      var slot :| slot in rest;
      PaidOneMore(banks, resources, provinces, buildings, rest, slot);
      PulsedOneMore(start, log, at, done, AppliedEvent(Pulse, at, seqNo + 1, "", "", slot));
      PaySlot(slot, at);
      rest', done' := rest - {slot}, done + {slot};
    }

    /** The loop of macroPulseHandler: every slot is paid its revenue, once. */
    method PayEveryone(at: int)
      requires Core() && Solvent()
      modifies this`resources, this`log, this`seqNo
      ensures Core() && Solvent() && Pulsed(old(log), log, at, players)
      ensures Paid(old(resources), resources, provinces, buildings, {})
    {
      hide Timeline.Valid, Attainable, Pulsed, Paid;
      var rest := resources.Keys;
      ghost var done: set<string> := {};
      PaidNobody(resources, provinces, buildings);
      PulsedNobody(log, at);
      while rest != {}
        invariant Core() && Solvent() && Paying(old(resources), old(log), at, done, rest)
        decreases rest
      {
        rest, done := PayNext(rest, at, old(resources), old(log), done);
      }
      assert done == players;
    }

    /** macroPulseHandler: everyone is paid, and the next pulse comes an interval later. */
    method PulseNow(e: Event) returns (ghost next: Event)
      requires Held(e) && e.kind == MacroPulse && Solvent()
      modifies this`resources, this`log, this`seqNo, timeline, timeline.heap
      ensures Core() && Solvent() && Pulsed(old(log), log, e.at, players)
      ensures NextPulse(old(timeline.pending), timeline.pending, next, e.at) && PulsePaid(old(Snap()), e, Snap())
    {
      hide Timeline.Valid, Attainable, Pulsed, Solvent, Paid;
      Goes(Present().(pending := timeline.pending + {e}), TakeNeutral(e));
      assert timeline.pending + {e} - {e} == timeline.pending;
      PayEveryone(e.at);
      ghost var before := Present();
      next := timeline.Push(e.at + MACRO_PULSE_INTERVAL, MacroPulse, "", 0);
      Goes(before, PutPulse(next));
      assert unchanged(this`provinces, this`units, this`buildings, this`nextRecruit, this`nextBuild, this`active,
          this`cleanupDone, this`ids, this`busy, this`stranded, this`paid, this`delivered, this`refunded, this`gameNow);
    }

    /** A UUID. */
    method FreshID() returns (id: string)
      ensures id !in ids
    {
      SomeIdIsFresh(ids);
      id :| id !in ids;
    }

    /** The order is done: half of its price goes back to its owner. */
    method RefundOrder(e: Event, order: Order)
      requires Held(e) && e.kind == RecruitComplete && Solvent()
      requires order.province in nextRecruit && nextRecruit[order.province] == order && order.id == e.unitID
      modifies this`nextRecruit, this`resources, this`refunded
      ensures Core() && Solvent() && nextRecruit == old(nextRecruit) - {order.province}
      ensures refunded == old(refunded) + {order.id} && GaveBackHalf(order, old(resources), resources)
    {
      hide Timeline.Valid, Attainable, UnitKind;
      ghost var held := Present().(pending := timeline.pending + {e});
      OrdersAreInOrder(held, order.province);
      var kind := UnitKind(order.what);
      Goes(held, Refund(e, order.province));
      assert timeline.pending + {e} - {e} == timeline.pending;
      nextRecruit, refunded := nextRecruit - {order.province}, refunded + {order.id};
      if kind.Known? && order.owner in resources {
        resources := resources[order.owner := resources[order.owner].Plus(kind.value.cost.Halved())];
      }
    }

    /** The order is done: a new unit is at rest in its province. */
    method DeliverOrder(e: Event, order: Order) returns (id: string)
      requires Held(e) && e.kind == RecruitComplete
      requires order.province in nextRecruit && nextRecruit[order.province] == order && order.id == e.unitID
      requires order.province in provinces
      modifies this`nextRecruit, this`units, this`ids, this`delivered
      ensures Core() && nextRecruit == old(nextRecruit) - {order.province} && delivered == old(delivered) + {order.id}
      ensures BecameUnit(order, provinces, old(units), units, id, e.at) && id !in old(ids) && ids == old(ids) + {id}
    {
      hide Timeline.Valid, Attainable;
      ghost var held := Present().(pending := timeline.pending + {e});
      OrdersAreInOrder(held, order.province);
      IdsAreKnown(held);
      var kind := UnitKind(order.what);
      id := FreshID();
      var u := Recruited(order, kind.value, provinces[order.province], id, e.at);
      Delivers(held, e, order.province, u);
      assert timeline.pending + {e} - {e} == timeline.pending;
      nextRecruit, units, ids, delivered := nextRecruit - {order.province}, units[id := u], ids + {id},
          delivered + {order.id};
    }

    /** The order's owner has lost the province. */
    method SettleByRefund(e: Event, order: Order)
      requires Held(e) && e.kind == RecruitComplete && Solvent() && !StillHolds(provinces, order)
      requires order.province in nextRecruit && nextRecruit[order.province] == order && order.id == e.unitID
      modifies this`nextRecruit, this`resources, this`refunded
      ensures Core() && Solvent() && RecruitSettled(old(Snap()), e, Snap(), order, "")
    {
      hide Timeline.Valid, Attainable, GaveBackHalf, Solvent, StillHolds;
      RefundOrder(e, order);
    }

    /** The order's owner still holds the province: the new unit is reported. */
    method SettleByUnit(e: Event, order: Order) returns (id: string)
      requires Held(e) && e.kind == RecruitComplete && StillHolds(provinces, order) && order.province in provinces
      requires order.province in nextRecruit && nextRecruit[order.province] == order && order.id == e.unitID
      modifies this`nextRecruit, this`units, this`ids, this`delivered, this`log, this`seqNo
      ensures Core() && RecruitSettled(old(Snap()), e, Snap(), order, id)
    {
      hide Timeline.Valid, Attainable, BecameUnit, StillHolds;
      id := DeliverOrder(e, order);
      Report(UnitRecruited, e.at, id, order.province, order.owner);
      assert unchanged(this`provinces, this`resources, this`buildings, this`nextBuild, this`active, this`cleanupDone,
          this`busy, this`stranded, this`paid, this`refunded, this`gameNow);
    }

    /** recruitCompleteHandler: the order becomes one unit if its owner still holds the province,
        and half of its price otherwise. */
    method CompleteRecruit(e: Event) returns (ghost order: Order, ghost id: string)
      requires Held(e) && e.kind == RecruitComplete && Solvent()
      modifies this`nextRecruit, this`units, this`ids, this`resources, this`delivered, this`refunded, this`log,
               this`seqNo
      ensures Core() && Solvent() && RecruitSettled(old(Snap()), e, Snap(), order, id)
    {
      hide Timeline.Valid, Attainable, RecruitSettled, Solvent;
      ghost var held := Present().(pending := timeline.pending + {e});
      CompletionHasOrder(held, e);
      var found, key := FindOrder(nextRecruit, e.unitID);
      if !found {
        assert false;
      }
      OrdersAreInOrder(held, key);
      var o := nextRecruit[key];
      order, id := o, "";
      if key !in provinces || provinces[key].owner != o.owner {
        SettleByRefund(e, o);
      } else {
        var unitID := SettleByUnit(e, o);
        id := unitID;
      }
    }

    /** The order is done, whatever becomes of the building. */
    method TakeBuildOrder(e: Event, order: Order)
      requires Held(e) && e.kind == ConstructComplete
      requires order.province in nextBuild && nextBuild[order.province] == order && order.id == e.unitID
      modifies this`nextBuild
      ensures Core() && nextBuild == old(nextBuild) - {order.province}
      ensures Snap() == old(Snap()).(a := old(Present()).(builds := nextBuild))
    {
      hide Timeline.Valid, Attainable;
      nextBuild := nextBuild - {order.province};
      Goes(old(Present()).(pending := timeline.pending + {e}), FinishBuild(e, order.province));
      assert timeline.pending + {e} - {e} == timeline.pending;
    }

    /** The building stands, and it is reported. */
    method StandBuilding(order: Order, at: int)
      requires Core()
      modifies this`buildings, this`log, this`seqNo
      ensures Core() && buildings == old(buildings) + [Building(order.what, order.province, order.owner)]
      ensures log == old(log) + [AppliedEvent(BuildingConstructed, at, old(seqNo) + 1, "", order.province, order.owner)]
      ensures seqNo == old(seqNo) + 1
      ensures Snap() == old(Snap()).(a := old(Present()).(log := log, seqNo := seqNo), buildings := buildings)
    {
      hide Timeline.Valid, Attainable;
      buildings := buildings + [Building(order.what, order.province, order.owner)];
      Report(BuildingConstructed, at, "", order.province, order.owner);
    }

    /** The order's owner still holds the province, or has lost it. */
    method SettleBuild(e: Event, order: Order)
      requires Held(e) && e.kind == ConstructComplete && order.owner != ""
      requires order.province in nextBuild && nextBuild[order.province] == order && order.id == e.unitID
      modifies this`nextBuild, this`buildings, this`log, this`seqNo
      ensures Core() && BuildSettled(old(Snap()), e, Snap(), order)
    {
      hide Timeline.Valid, Attainable, StillHolds;
      assert StillHolds(provinces, order) <==>
        order.province in provinces && provinces[order.province].owner == order.owner by {
        OwnerStillHolds(provinces, order);
      }
      TakeBuildOrder(e, order);
      if order.province in provinces && provinces[order.province].owner == order.owner {
        StandBuilding(order, e.at);
      }
    }

    /** constructCompleteHandler: the building stands if its owner still holds the province. */
    method CompleteConstruct(e: Event) returns (ghost order: Order)
      requires Held(e) && e.kind == ConstructComplete
      modifies this`nextBuild, this`buildings, this`log, this`seqNo
      ensures Core() && BuildSettled(old(Snap()), e, Snap(), order)
    {
      hide Timeline.Valid, Attainable, BuildSettled;
      ghost var held := Present().(pending := timeline.pending + {e});
      CompletionHasOrder(held, e);
      var found, key := FindOrder(nextBuild, e.unitID);
      if !found {
        assert false;
      }
      BuildsAreInOrder(held, key);
      var o := nextBuild[key];
      order := o;
      SettleBuild(e, o);
    }

    /** The clock advances. */
    method Advance(now: int)
      requires Core() && busy == {} && gameNow <= now
      modifies this`gameNow
      ensures Core() && gameNow == now
    {
      hide Timeline.Valid, Attainable;
      gameNow := now;
      Goes(old(Present()), Tick(now));
    }

    // ---------- orders ----------

    /** A paid order for a unit is filed, and its completion is scheduled. */
    method FileRecruit(order: Order)
      requires Core() && order.province !in nextRecruit && order.id !in ids && order.owner in players
      requires UnitKind(order.what).Known? && gameNow + MILLISECOND <= order.completesAt
      modifies this`nextRecruit, this`ids, this`paid, timeline, timeline.heap
      ensures Core() && nextRecruit == old(nextRecruit)[order.province := order]
      ensures ids == old(ids) + {order.id} && paid == old(paid) + {order.id}
      ensures Posted(units, old(timeline.pending), timeline.pending, 1, gameNow + MILLISECOND)
    {
      hide Timeline.Valid, Attainable, UnitKind, Posted;
      ghost var before := Present();
      ghost var e := timeline.Push(order.completesAt, RecruitComplete, order.id, 0);
      PostedOne(units, old(timeline.pending), e, gameNow + MILLISECOND);
      Goes(before, PlaceRecruit(order, e));
      nextRecruit, ids, paid := nextRecruit[order.province := order], ids + {order.id}, paid + {order.id};
    }

    /** An order for a unit is filed under a new id. */
    method BookRecruit(issuer: string, from: string, what: string, kind: Kind) returns (order: Order)
      requires Core() && from !in nextRecruit && issuer in players && UnitKind(what) == Known(kind)
      modifies this`nextRecruit, this`ids, this`paid, timeline, timeline.heap
      ensures Core() && order.id !in old(ids)
      ensures order == Order(order.id, issuer, from, what, gameNow, gameNow + kind.buildTime)
      ensures nextRecruit == old(nextRecruit)[from := order]
      ensures Snap() == old(Snap()).(a := old(Present()).(recruits := nextRecruit, pending := timeline.pending,
          ids := old(ids) + {order.id}, paid := old(paid) + {order.id}))
      ensures Posted(units, old(timeline.pending), timeline.pending, 1, gameNow + MILLISECOND)
    {
      hide Timeline.Valid, Attainable, UnitKind, Posted;
      var id := FreshID();
      order := Order(id, issuer, from, what, gameNow, gameNow + kind.buildTime);
      FileRecruit(order);
      assert unchanged(this`provinces, this`units, this`buildings, this`nextBuild, this`active, this`resources,
          this`cleanupDone, this`log, this`seqNo, this`busy, this`stranded, this`delivered, this`refunded,
          this`gameNow);
    }

    /** An order for a unit is paid, filed and scheduled. */
    method PlaceRecruitOrder(issuer: string, from: string, what: string, kind: Kind) returns (order: Order)
      requires Core() && Solvent() && from in provinces && provinces[from].owner == issuer && issuer != ""
      requires UnitKind(what) == Known(kind) && from !in nextRecruit
      requires issuer in resources && resources[issuer].CanPay(kind.cost)
      modifies this`resources, this`nextRecruit, this`ids, this`paid, timeline, timeline.heap
      ensures Core() && Solvent() && order.id !in old(ids)
      ensures order == Order(order.id, issuer, from, what, gameNow, gameNow + kind.buildTime)
      ensures nextRecruit == old(nextRecruit)[from := order]
      ensures resources == old(resources)[issuer := old(resources)[issuer].Minus(kind.cost)]
      ensures Snap() == old(Snap()).(a := old(Present()).(recruits := nextRecruit, pending := timeline.pending,
          ids := old(ids) + {order.id}, paid := old(paid) + {order.id}), banks := resources)
      ensures Posted(units, old(timeline.pending), timeline.pending, 1, gameNow + MILLISECOND)
    {
      hide Timeline.Valid, Attainable, UnitKind, Posted;
      PayersArePlayers(Present(), from);
      Pay(issuer, kind.cost);
      order := BookRecruit(issuer, from, what, kind);
    }

    /** A paid order for a building is filed, and its completion is scheduled. */
    method FileBuild(order: Order)
      requires Core() && order.province !in nextBuild && order.id !in ids && order.owner in players
      requires gameNow + MILLISECOND <= order.completesAt
      modifies this`nextBuild, this`ids, timeline, timeline.heap
      ensures Core() && nextBuild == old(nextBuild)[order.province := order] && ids == old(ids) + {order.id}
      ensures Posted(units, old(timeline.pending), timeline.pending, 1, gameNow + MILLISECOND)
    {
      hide Timeline.Valid, Attainable, Posted;
      ghost var before := Present();
      ghost var e := timeline.Push(order.completesAt, ConstructComplete, order.id, 0);
      PostedOne(units, old(timeline.pending), e, gameNow + MILLISECOND);
      Goes(before, PlaceBuild(order, e));
      nextBuild, ids := nextBuild[order.province := order], ids + {order.id};
    }

    /** An order for a building is filed under a new id. */
    method BookBuild(issuer: string, from: string, what: string, kind: BuildingKind) returns (order: Order)
      requires Core() && from !in nextBuild && issuer in players && BuildingKindOf(what) == Known(kind)
      modifies this`nextBuild, this`ids, timeline, timeline.heap
      ensures Core() && order.id !in old(ids)
      ensures order == Order(order.id, issuer, from, what, gameNow, gameNow + kind.buildTime)
      ensures nextBuild == old(nextBuild)[from := order]
      ensures Snap() == old(Snap()).(a := old(Present()).(builds := nextBuild, pending := timeline.pending,
          ids := old(ids) + {order.id}))
      ensures Posted(units, old(timeline.pending), timeline.pending, 1, gameNow + MILLISECOND)
    {
      hide Timeline.Valid, Attainable, BuildingKindOf, Posted;
      var id := FreshID();
      order := Order(id, issuer, from, what, gameNow, gameNow + kind.buildTime);
      FileBuild(order);
      assert unchanged(this`provinces, this`units, this`buildings, this`nextRecruit, this`active, this`resources,
          this`cleanupDone, this`log, this`seqNo, this`busy, this`stranded, this`paid, this`delivered, this`refunded,
          this`gameNow);
    }

    /** An order for a building is paid, filed and scheduled. */
    method PlaceBuildOrder(issuer: string, from: string, what: string, kind: BuildingKind) returns (order: Order)
      requires Core() && Solvent() && from in provinces && provinces[from].owner == issuer && issuer != ""
      requires BuildingKindOf(what) == Known(kind) && from !in nextBuild
      requires issuer in resources && resources[issuer].CanPay(kind.cost)
      modifies this`resources, this`nextBuild, this`ids, timeline, timeline.heap
      ensures Core() && Solvent() && order.id !in old(ids)
      ensures order == Order(order.id, issuer, from, what, gameNow, gameNow + kind.buildTime)
      ensures nextBuild == old(nextBuild)[from := order]
      ensures resources == old(resources)[issuer := old(resources)[issuer].Minus(kind.cost)]
      ensures Snap() == old(Snap()).(a := old(Present()).(builds := nextBuild, pending := timeline.pending,
          ids := old(ids) + {order.id}), banks := resources)
      ensures Posted(units, old(timeline.pending), timeline.pending, 1, gameNow + MILLISECOND)
    {
      hide Timeline.Valid, Attainable, BuildingKindOf, Posted;
      PayersArePlayers(Present(), from);
      Pay(issuer, kind.cost);
      order := BookBuild(issuer, from, what, kind);
    }

    /** Pay: callers check CanPay first. */
    method Pay(slot: string, cost: Resources)
      requires Solvent() && slot in resources && resources[slot].CanPay(cost)
      modifies this`resources
      ensures Solvent() && resources == old(resources)[slot := old(resources)[slot].Minus(cost)]
      ensures Snap() == old(Snap()).(banks := resources)
    {
      resources := resources[slot := resources[slot].Minus(cost)];
    }

    // ---------- the event loop ----------

    /** The handlers of orders and of the economy. */
    method HandleEconomy(e: Event)
      requires Held(e) && Solvent() && e.kind in {MacroPulse, RecruitComplete, ConstructComplete}
      modifies this`units, this`resources, this`buildings, this`seqNo, this`log, this`nextRecruit, this`nextBuild,
               this`ids, this`delivered, this`refunded, timeline, timeline.heap
      ensures Core() && Solvent() && Handles(graph, old(Snap()), e, Snap())
    {
      hide Timeline.Valid, Attainable, Solvent, Pulsed, PulsePaid, RecruitSettled, BuildSettled, NextPulse, Handles;
      match e.kind {
        case MacroPulse =>
          ghost var next := PulseNow(e);
          PulseIsHandled(graph, old(Snap()), e, Snap());
        case RecruitComplete =>
          ghost var order, id := CompleteRecruit(e);
          RecruitIsHandled(graph, old(Snap()), e, Snap(), order, id);
        case ConstructComplete =>
          ghost var order := CompleteConstruct(e);
          BuildIsHandled(graph, old(Snap()), e, Snap(), order);
      }
    }

    /** The handlers that decide and clean up the match, and the kinds that have none. */
    method HandleEnding(e: Event)
      requires Held(e) && e.kind in {VictoryCheck, MatchCleanup, CombatStart, CombatTick}
      modifies this`active, this`winnerSlot, this`winnerCoal, this`cleanupDone, this`seqNo, this`log, timeline,
               timeline.heap
      ensures Core() && Handles(graph, old(Snap()), e, Snap())
    {
      hide Timeline.Valid, Attainable, Told, VictoryChecked, CleanedUp, Handles;
      match e.kind {
        case VictoryCheck =>
          CheckVictoryNow(e);
        case MatchCleanup =>
          CleanUpMatch(e);
        case CombatStart =>
          Ignore(e);
        case CombatTick =>
          Ignore(e);
      }
      EndingIsHandled(graph, old(Snap()), e, Snap());
    }

    /** HandleEvent: dispatch to the handler of the event's kind; kinds without one change nothing.
        Whatever it does, nobody is teleported, and at most two events are added, all later. */
    method HandleEvent(e: Event) returns (hung: bool)
      requires Held(e) && Solvent() && graph.Sound()
      modifies this`units, this`provinces, this`resources, this`buildings, this`busy, this`stranded, this`active,
               this`winnerSlot, this`winnerCoal, this`cleanupDone, this`seqNo, this`log, this`nextRecruit,
               this`nextBuild, this`ids, this`delivered, this`refunded, timeline, timeline.heap
      ensures hung ==> e.kind == Arrival && Current(old(units), e)
      ensures hung ==>
          EndsInPeril(diplomacy.Value(), graph, players, old(units), old(provinces), old(units)[e.unitID], e.at)
      ensures !hung ==> Core() && Solvent() && Handles(graph, old(Snap()), e, Snap())
      ensures !hung ==> busy == {} && stranded <= old(stranded) && Told(old(log), log, e.at)
      ensures !hung ==> Steady(old(units), units, e.at)
      ensures !hung ==> Added(old(timeline.pending), timeline.pending, 2, e.at + MILLISECOND)
    {
      hide Timeline.Valid, Attainable, Told, Added, Graph.Sound, Solvent, Steady, Unmoved, Posted, EndsInPeril, Handles;
      hung := false;
      if e.kind == Arrival {
        hung := Arrive(e);
      } else if e.kind in {MacroPulse, RecruitComplete, ConstructComplete} {
        HandleEconomy(e);
      } else {
        HandleEnding(e);
      }
      if !hung {
        HandlingIsOrderly(graph, old(Snap()), e, Snap());
      }
    }

    /** An event of a kind that has no handler. */
    lemma Ignore(e: Event)
      requires Held(e) && (e.kind == CombatStart || e.kind == CombatTick)
      ensures Core()
    {
      hide Timeline.Valid, Attainable;
      Goes(Present().(pending := timeline.pending + {e}), TakeNeutral(e));
      assert timeline.pending + {e} - {e} == timeline.pending;
    }

    /** One round of the loop: the earliest event is handled if it is due. */
    method DrainOne(now: int) returns (more: bool, hung: bool, ghost e: Event)
      requires Core() && busy == {} && Solvent() && graph.Sound()
      modifies this`units, this`provinces, this`resources, this`buildings, this`busy, this`stranded, this`active,
               this`winnerSlot, this`winnerCoal, this`cleanupDone, this`seqNo, this`log, this`nextRecruit,
               this`nextBuild, this`ids, this`delivered, this`refunded, timeline, timeline.heap
      ensures hung ==> more && e.at <= now && Hangs(graph, old(Snap()), e)
      ensures !hung ==> Core() && busy == {} && Solvent()
      ensures !more ==> !hung && NothingDue(timeline.pending, now) && Snap() == old(Snap())
      ensures more && !hung ==> HandlesNext(graph, old(Snap()), e, Snap(), now)
    {
      hide Timeline.Valid, Attainable, Told, Added, Graph.Sound, Solvent, Steady, EndsInPeril, Handles;
      var found, next := timeline.Peek();
      more, hung, e := false, false, next;
      if found && next.at <= now {
        more := true;
        ghost var before := Snap();
        var popped;
        found, popped := timeline.Pop();
        e := popped;
        assert timeline.pending + {e} == before.a.pending && Snap() == before.Without(e);
        hung := HandleEvent(popped);
      }
    }

    /** ProcessNext: handle everything that is due, in order of time.  It goes through the moments of `course`,
        each of which is what handling the earliest event makes of the one before.  It terminates for every
        queue and every `now`, unless it comes to a moment whose earliest event e is due and is the arrival of
        a unit whose leg ends in a perilous garrison.  Otherwise nothing due is left, and the reports it
        returns are numbered consecutively and in order of time. */
    method ProcessNext(now: int) returns (hung: bool, out: seq<AppliedEvent>, ghost course: Course, ghost e: Event)
      requires Core() && busy == {} && Solvent() && graph.Sound()
      modifies this`units, this`provinces, this`resources, this`buildings, this`busy, this`stranded, this`active,
               this`winnerSlot, this`winnerCoal, this`cleanupDone, this`seqNo, this`log, this`nextRecruit,
               this`nextBuild, this`ids, this`delivered, this`refunded, timeline, timeline.heap
      ensures course.Ok(graph, now) && course.first == old(Snap())
      ensures hung ==> e.at <= now && Hangs(graph, course.Last(), e)
      ensures hung ==> Chronicled(old(log), course.Last().a.log, e.at)
      ensures !hung ==> course.Last() == Snap() && Core() && busy == {} && stranded <= old(stranded) && Solvent()
      ensures !hung ==> NothingDue(timeline.pending, now)
      ensures !hung ==> log == old(log) + out && InOrder(out, now) && Numbered(out, old(seqNo))
    {
      hide Timeline.Valid, Attainable, Graph.Sound, Solvent, Work, Chronicled, Hangs, HandlesNext, NothingDue;
      var already := |log|;
      course := Course(Snap(), [], []);
      while true
        invariant Core() && busy == {} && Solvent()
        invariant course.Ok(graph, now) && course.first == old(Snap()) && course.Last() == Snap()
        decreases Work(timeline.pending, now)
      {
        ghost var s := Snap();
        var more;
        more, hung, e := DrainOne(now);
        if hung {
          HungInOrder(graph, course, e, now);
          return true, [], course, e;
        }
        if !more {
          break;
        }
        NextIsOrderly(graph, s, e, Snap(), now);
        CourseGoesOn(graph, course, e, Snap(), now);
        course := course.Then(e, Snap());
      }
      NumbersAreRight(old(Present()));
      NumbersAreRight(Present());
      ghost var last := CoursesAreInOrder(graph, course, now);
      CoursesKeep(graph, course, now);
      ChronicleEnds(old(log), log, last, now, old(seqNo), seqNo);
      hung, out := false, log[already..];
    }
  }

  lemma OwnerStillHolds(provinces: ProvinceTable, order: Order)
    requires order.owner != ""
    ensures StillHolds(provinces, order) <==>
        order.province in provinces && provinces[order.province].owner == order.owner
  {
  }

  /** k names the coalition of s, one of the slots, and `members` are its members. */
  ghost predicate IdentifiedBy(l: Ledger, all: set<string>, slots: set<string>, k: string, members: set<string>,
      s: string)
  {
    s in slots && k == CoalId(l, all, s) && members == Component(l, all, s)
  }

  lemma CapitalOwnersArePlayers(provinces: ProvinceTable, players: set<string>)
    requires forall p {:trigger provinces[p]} | p in provinces ::
        provinces[p].owner == "" || provinces[p].owner in players
    ensures CapitalOwners(provinces) <= players
  {
  }

  lemma ManyCoalitions(l: Ledger, all: set<string>, slots: set<string>, coalitions: map<string, set<string>>)
    requires slots != {} && |coalitions| != 1
    requires forall s | s in slots :: CoalId(l, all, s) in coalitions
    requires forall k | k in coalitions :: exists s :: IdentifiedBy(l, all, slots, k, coalitions[k], s)
    ensures !OneCoalition(l, all, slots)
  {
    var s0 :| s0 in slots;
    var k0 := CoalId(l, all, s0);
    assert |coalitions.Keys - {k0}| > 0;
    var k :| k in coalitions.Keys - {k0};
    var s :| IdentifiedBy(l, all, slots, k, coalitions[k], s);
    assert CoalId(l, all, s) != CoalId(l, all, s0);
  }

  lemma OneCoalitionWins(l: Ledger, all: set<string>, slots: set<string>, coalitions: map<string, set<string>>,
      k: string)
    requires slots <= all && |coalitions| == 1 && k in coalitions
    requires forall s | s in slots :: CoalId(l, all, s) in coalitions
    requires forall j | j in coalitions :: exists s :: IdentifiedBy(l, all, slots, j, coalitions[j], s)
    ensures forall s | s in slots :: CoalId(l, all, s) == k
    ensures OneCoalition(l, all, slots) && coalitions[k] * slots == slots
  {
    assert coalitions.Keys == {k} by { assert |coalitions.Keys - {k}| == 0; }
    forall s | s in slots
      ensures CoalId(l, all, s) == k
    {
      assert CoalId(l, all, s) in coalitions.Keys;
    }
    var s :| IdentifiedBy(l, all, slots, k, coalitions[k], s);
    forall o | o in slots
      ensures o in coalitions[k]
    {
      SameIdIffLinked(l, all, s, o);
    }
  }
}
