/** The fight loop on the units themselves: what one round does to the table of units and to
    the champions, and what follows for a whole fight. */
module Bouts {
  import opened Units
  import opened Fights
  import opened MatchState

  /** The units of the match and, by coalition, the ids of the champions still standing. */
  datatype Bout = Bout(units: UnitTable, champions: map<string, string>) {
    ghost predicate Ready() {
      Distinct(champions) && forall k {:trigger champions[k]} | k in champions :: champions[k] in units
    }

    ghost function Arena(): Arena {
      ArenaOf(units, champions)
    }

    /** One blow, by ids: the victim loses hit points and, if none are left, is removed from the
        units, and the entry under its owner's name from the champions. */
    function Struck(weakest: string, attacker: string): Bout
      requires weakest in units && attacker in units
    {
      var u := units[weakest];
      var hp := u.hp - UnitDamage(units[attacker].kind, u.kind);
      if hp <= 0.0 then Bout(units - {weakest}, champions - {u.owner})
      else Bout(units[weakest := u.(hp := hp)], champions)
    }

    /** w is filed under the weakest champion, a under the strongest of the others. */
    ghost predicate Picked(w: string, a: string) {
      && w in champions && a in champions && champions[w] in units && champions[a] in units
      && Weakest(Arena(), w) && StrongestBut(Arena(), w, a)
    }
  }

  ghost predicate RoundBy(b: Bout, c: Bout, w: string, a: string) {
    && b.Picked(w, a) && b.units[b.champions[w]].owner == w
    && c == b.Struck(b.champions[w], b.champions[a])
  }

  ghost predicate Round(b: Bout, c: Bout) {
    exists w, a :: RoundBy(b, c, w, a)
  }

  /** A fight, round by round. */
  datatype Contest = Opening(now: Bout) | After(before: Contest, now: Bout) {
    ghost predicate Fair() {
      After? ==> before.Fair() && Round(before.now, now)
    }

    ghost function First(): Bout {
      if Opening? then now else before.First()
    }

    ghost function Rounds(): nat {
      if Opening? then 0 else before.Rounds() + 1
    }
  }

  /** The reports of this many rounds, from b to c: one blow each, a death for every champion fallen, and the units
      reported destroyed are just those that are gone. */
  ghost predicate Recounts(out: seq<AppliedEvent>, b: Bout, c: Bout, rounds: nat, at: int) {
    && Quiet(out, at) && Count(out, CombatDamage) == rounds && Count(out, ProvinceCaptured) == 0
    && Count(out, UnitDestroyed) == |b.champions| - |c.champions|
    && c.units.Keys == b.units.Keys - Destroyed(out)
  }

  /** The reports of one blow and, if it is one, of the death. */
  ghost predicate OneBlow(out: seq<AppliedEvent>, victim: string, died: bool, at: int) {
    && Quiet(out, at) && Count(out, CombatDamage) == 1 && Count(out, ProvinceCaptured) == 0
    && Count(out, UnitDestroyed) == (if died then 1 else 0) && Destroyed(out) == (if died then {victim} else {})
  }

  lemma BlowIsReported(blow: AppliedEvent, victim: string)
    requires blow.kind == CombatDamage
    ensures OneBlow([blow], victim, false, blow.at)
  {
    CountOneMore([], blow, CombatDamage);
    CountOneMore([], blow, UnitDestroyed);
    CountOneMore([], blow, ProvinceCaptured);
    assert [] + [blow] == [blow];
  }

  lemma DeathIsReported(blow: AppliedEvent, death: AppliedEvent)
    requires blow.kind == CombatDamage && death.kind == UnitDestroyed && blow.at == death.at
    ensures OneBlow([blow] + [death], death.unitID, true, blow.at)
  {
    hide Count, Destroyed;
    BlowIsReported(blow, death.unitID);
    CountOneMore([blow], death, CombatDamage);
    CountOneMore([blow], death, UnitDestroyed);
    CountOneMore([blow], death, ProvinceCaptured);
    DestroyedJoins([blow], [death]);
    DeathsAreNamed(death);
  }

  lemma DeathsAreNamed(death: AppliedEvent)
    requires death.kind == UnitDestroyed
    ensures Destroyed([death]) == {death.unitID}
  {
    assert [death][0] == death;
  }

  lemma BlowIsRecounted(out: seq<AppliedEvent>, b: Bout, weakest: string, attacker: string, at: int)
    requires weakest in b.units && attacker in b.units && b.units[weakest].owner in b.champions
    requires var hp := b.units[weakest].hp - UnitDamage(b.units[attacker].kind, b.units[weakest].kind);
             OneBlow(out, weakest, hp <= 0.0, at)
    ensures Recounts(out, b, b.Struck(weakest, attacker), 1, at)
  {
    hide Count, Destroyed, Quiet;
    var owner := b.units[weakest].owner;
    assert (b.champions - {owner}).Keys == b.champions.Keys - {owner};
  }

  lemma RecountsNothing(b: Bout, at: int)
    ensures Recounts([], b, b, 0, at)
  {
  }

  lemma RecountsMore(out: seq<AppliedEvent>, more: seq<AppliedEvent>, b: Bout, c: Bout, d: Bout, m: nat, n: nat,
                     at: int)
    requires Recounts(out, b, c, m, at) && Recounts(more, c, d, n, at)
    ensures Recounts(out + more, b, d, m + n, at)
  {
    hide Count, Destroyed;
    CountJoins(out, more, CombatDamage);
    CountJoins(out, more, UnitDestroyed);
    CountJoins(out, more, ProvinceCaptured);
    DestroyedJoins(out, more);
  }

  /** Champions that may begin to fight. */
  ghost predicate MayFight(b: Bout) {
    b.Ready() && b.champions != map[] && Alive(b.Arena()) && Unambiguous(b.Arena())
  }

  /** How the fight has changed the units since u0: the fallen champions are gone, the
      remaining ones differ at most in hit points, and nobody else is touched. */
  ghost predicate Fought(u0: UnitTable, champs: map<string, string>, units: UnitTable, champions: map<string, string>) {
    && champions.Keys <= champs.Keys
    && (forall k {:trigger champions[k]} | k in champions ::
          k in champs && champions[k] == champs[k] && champions[k] in units)
    && (forall k {:trigger champs[k]} | k in champs && k !in champions :: champs[k] !in units)
    && (forall id {:trigger id in units} | id in units :: id in u0 && units[id] == u0[id].(hp := units[id].hp))
    && (forall id {:trigger id in u0} | id in u0 && id !in units :: id in champs.Values)
    && (forall id {:trigger units[id]} | id in units && id !in champions.Values :: units[id] == u0[id])
  }

  lemma FoughtStart(u0: UnitTable, champs: map<string, string>)
    requires forall k | k in champs :: champs[k] in u0
    ensures Fought(u0, champs, u0, champs)
  {
  }

  lemma OthersRemain(champs: map<string, string>, w: string)
    requires |champs| > 1 && Distinct(champs) && w in champs
    ensures (map k | k in champs && champs[k] != champs[w] :: champs[k]) != map[]
  {
    var others := map k | k in champs && champs[k] != champs[w] :: champs[k];
    assert |champs.Keys - {w}| > 0;
    var k :| k in champs.Keys - {w};
    assert k in others;
  }

  lemma PicksAreExtreme(units: UnitTable, champs: map<string, string>, others: map<string, string>, w: string,
      a: string)
    requires Distinct(champs) && w in champs && others == map k | k in champs && champs[k] != champs[w] :: champs[k]
    requires a in champs && champs[a] != champs[w]
    requires forall k | k in champs :: champs[k] in units
    requires forall k | k in champs :: units[champs[w]].hp <= units[champs[k]].hp
    requires forall k | k in others :: others[k] in units && units[others[k]].hp <= units[champs[a]].hp
    ensures Weakest(ArenaOf(units, champs), w) && StrongestBut(ArenaOf(units, champs), w, a)
  {
    var arena := ArenaOf(units, champs);
    forall k | k in arena && k != w
      ensures arena[k].hp <= arena[a].hp
    {
      assert champs[k] != champs[w];
      assert k in others;
    }
  }

  /** A round that only hurts the weakest champion. */
  lemma HurtMatches(units: UnitTable, champs: map<string, string>, w: string, a: string, hp: real)
    requires Distinct(champs) && w in champs && a in champs && w != a
    requires forall k | k in champs :: champs[k] in units
    requires hp == units[champs[w]].hp - UnitDamage(units[champs[a]].kind, units[champs[w]].kind) && hp > 0.0
    ensures var hurt := units[champs[w] := units[champs[w]].(hp := hp)];
            ArenaOf(hurt, champs) == Strike(ArenaOf(units, champs), w, a) && Fought(units, champs, hurt, champs)
  {
    var id := champs[w];
    var hurt := units[id := units[id].(hp := hp)];
    var arena := ArenaOf(units, champs);
    forall k | k in champs
      ensures k != w ==> hurt[champs[k]] == units[champs[k]]
    {
    }
    assert ArenaOf(hurt, champs) == arena[w := arena[w].(hp := hp)];
    assert champs[w] in champs.Values;
  }

  /** A round that kills it. */
  lemma KillMatches(units: UnitTable, champs: map<string, string>, w: string, a: string, hp: real)
    requires Distinct(champs) && w in champs && a in champs && w != a
    requires forall k | k in champs :: champs[k] in units
    requires units[champs[w]].owner == w
    requires hp == units[champs[w]].hp - UnitDamage(units[champs[a]].kind, units[champs[w]].kind) && hp <= 0.0
    ensures units[champs[w] := units[champs[w]].(hp := hp)] - {champs[w]} == units - {champs[w]}
    ensures ArenaOf(units - {champs[w]}, champs - {w}) == Strike(ArenaOf(units, champs), w, a)
    ensures Fought(units, champs, units - {champs[w]}, champs - {w}) && Distinct(champs - {w})
  {
    var id := champs[w];
    var u, c := units - {id}, champs - {w};
    var arena := ArenaOf(units, champs);
    forall k | k in c
      ensures champs[k] != id && champs[k] in u
    {
    }
    assert ArenaOf(u, c) == arena - {w};
    assert arena[w := arena[w].(hp := hp)] - {w} == arena - {w};
    assert id in champs.Values;
  }

  /** What a round does to the units is what Strike does to the arena. */
  lemma RoundStrikes(b: Bout, c: Bout, w: string, a: string)
    requires b.Ready() && RoundBy(b, c, w, a)
    ensures c.Ready() && c.Arena() == Strike(b.Arena(), w, a)
    ensures Fought(b.units, b.champions, c.units, c.champions)
  {
    var hp := b.units[b.champions[w]].hp - UnitDamage(b.units[b.champions[a]].kind, b.units[b.champions[w]].kind);
    if hp > 0.0 {
      HurtMatches(b.units, b.champions, w, a, hp);
    } else {
      KillMatches(b.units, b.champions, w, a, hp);
    }
  }

  /** Champions stay distinct and in the match. */
  lemma {:induction false} ContestIsReady(c: Contest)
    requires c.Fair() && c.First().Ready()
    ensures c.now.Ready()
  {
    if c.Opening? {
    } else {
      ContestIsReady(c.before);
      RoundKeepsReady(c.before.now, c.now);
    }
  }

  lemma RoundKeepsReady(b: Bout, c: Bout)
    requires b.Ready() && Round(b, c)
    ensures c.Ready() && Fought(b.units, b.champions, c.units, c.champions)
  {
    var w, a :| RoundBy(b, c, w, a);
    RoundStrikes(b, c, w, a);
  }

  lemma RoundGoesOn(f0: Arena, b: Bout, n: nat, c: Bout)
    requires Underway(f0, b.Arena(), n) && b.Ready() && Round(b, c)
    ensures Underway(f0, c.Arena(), n + 1) && Toll(c.Arena()) < Toll(b.Arena())
  {
    var w, a :| RoundBy(b, c, w, a);
    RoundStrikes(b, c, w, a);
    FightGoesOn(f0, b.Arena(), n, w, a, c.Arena());
  }

  /** Seen from the arena, every round is a strike. */
  lemma {:induction false} ContestIsUnderway(c: Contest)
    requires c.Fair() && MayFight(c.First())
    ensures Underway(c.First().Arena(), c.now.Arena(), c.Rounds())
  {
    if c.Opening? {
      FightStart(c.now.Arena());
    } else {
      ContestIsUnderway(c.before);
      ContestIsReady(c.before);
      RoundGoesOn(c.First().Arena(), c.before.now, c.before.Rounds(), c.now);
    }
  }

  /** Only champions are touched. */
  lemma {:induction false} ContestFights(c: Contest)
    requires c.Fair() && c.First().Ready()
    ensures Fought(c.First().units, c.First().champions, c.now.units, c.now.champions)
  {
    if c.Opening? {
      FoughtStart(c.now.units, c.now.champions);
    } else {
      ContestFights(c.before);
      ContestIsReady(c.before);
      RoundKeepsReady(c.before.now, c.now);
      FoughtTrans(c.First().units, c.First().champions, c.before.now.units, c.before.now.champions, c.now.units,
          c.now.champions);
    }
  }

  /** b's weakest champion is filed under w, but not owned by w. */
  ghost predicate Misfiled(b: Bout, w: string) {
    w in b.Arena() && b.Arena()[w].owner != w && exists a :: b.Picked(w, a)
  }

  /** Whether the weakest champion is filed under its owner's name. */
  lemma FiledOrNot(b: Bout, w: string, a: string)
    requires b.Ready() && b.Picked(w, a)
    ensures b.champions[w] in b.units && b.champions[a] in b.units && w in b.champions
    ensures var owner := b.units[b.champions[w]].owner;
            if owner in b.champions && b.champions[owner] == b.champions[w]
            then RoundBy(b, b.Struck(b.champions[w], b.champions[a]), w, a) else Misfiled(b, w)
  {
  }

  lemma ContestOneMore(c: Contest, b: Bout, w: string, a: string)
    requires c.Fair() && MayFight(c.First()) && RoundBy(c.now, b, w, a)
    ensures After(c, b).Fair() && Toll(b.Arena()) < Toll(c.now.Arena())
  {
    assert Round(c.now, b);
    ContestIsReady(c);
    ContestIsUnderway(c);
    RoundGoesOn(c.First().Arena(), c.now, c.Rounds(), b);
  }

  /** A fight that comes to strike a misfiled champion did not have to end, and never will:
      some misfiled champion was not stronger than all the others, and now w is stuck. */
  lemma ContestSticks(c: Contest, w: string) returns (a: string)
    requires c.Fair() && MayFight(c.First()) && Misfiled(c.now, w)
    ensures !Settles(c.First().Arena()) && c.now.Picked(w, a)
    ensures Stuck(Strike(c.now.Arena(), w, a), w)
  {
    ContestIsUnderway(c);
    a :| c.now.Picked(w, a);
    FightSticks(c.First().Arena(), c.now.Arena(), c.Rounds(), w, a);
  }

  /** t is the sole champion left, unhurt; no champion was stronger; the others are dead. */
  ghost predicate Won(u0: UnitTable, champs: map<string, string>, units: UnitTable, champions: map<string, string>,
      t: string)
  {
    && UnhurtTop(ArenaOf(u0, champs), ArenaOf(u0, champs), t) && t in champs
    && champions == map[t := champs[t]]
    && units.Keys == u0.Keys - (champs.Values - {champs[t]})
    && forall id | id in units :: id in u0 && units[id] == u0[id]
  }

  lemma OnlyEntry(champions: map<string, string>, t: string)
    requires |champions| <= 1 && t in champions
    ensures champions == map[t := champions[t]]
  {
    assert champions.Keys == {t} by { assert |champions.Keys - {t}| == 0; }
  }

  lemma Victor(u0: UnitTable, champs: map<string, string>, units: UnitTable, champions: map<string, string>, t: string)
    requires Fought(u0, champs, units, champions) && Distinct(champs) && |champions| <= 1
    requires UnhurtTop(ArenaOf(u0, champs), ArenaOf(u0, champs), t)
    requires UnhurtTop(ArenaOf(u0, champs), ArenaOf(units, champions), t)
    ensures Won(u0, champs, units, champions, t)
  {
    OnlyEntry(champions, t);
    LastOneStands(u0, champs, units, champions, t);
  }

  lemma LastOneStands(u0: UnitTable, champs: map<string, string>, units: UnitTable, champions: map<string, string>,
      t: string)
    requires Fought(u0, champs, units, champions) && Distinct(champs)
    requires t in champs && champs[t] in u0 && champions == map[t := champs[t]]
    requires champs[t] in units && units[champs[t]].hp == u0[champs[t]].hp
    ensures units.Keys == u0.Keys - (champs.Values - {champs[t]})
    ensures forall id | id in units :: id in u0 && units[id] == u0[id]
  {
    forall id | id in champs.Values && id != champs[t]
      ensures id !in units
    {
      var k :| k in champs && champs[k] == id;
      assert k !in champions;
    }
    assert champions.Values == {champs[t]};
  }

  lemma FoughtTrans(u0: UnitTable, champs: map<string, string>, u1: UnitTable, c1: map<string, string>,
                    u2: UnitTable, c2: map<string, string>)
    requires Fought(u0, champs, u1, c1) && Fought(u1, c1, u2, c2)
    ensures Fought(u0, champs, u2, c2)
  {
    forall k | k in champs && k !in c2
      ensures champs[k] !in u2
    {
      if k in c1 {
        assert c1[k] == champs[k];
      }
    }
    forall id | id in u0 && id !in u2
      ensures id in champs.Values
    {
      if id in u1 {
        var k :| k in c1 && c1[k] == id;
        assert champs[k] == id;
      }
    }
    forall id | id in u2 && id !in c2.Values
      ensures u2[id] == u0[id]
    {
      if id in c1.Values {
        assert false;
      }
    }
  }

  /** A fight that has come down to one champion. */
  lemma ContestOver(c: Contest) returns (t: string)
    requires c.Fair() && MayFight(c.First()) && |c.now.champions| <= 1
    ensures Won(c.First().units, c.First().champions, c.now.units, c.now.champions, t)
    ensures t in c.First().Arena() && c.Rounds() <= LosersToll(c.First().Arena(), t)
  {
    ContestIsUnderway(c);
    ContestFights(c);
    t := FightIsOver(c.First().Arena(), c.now.Arena(), c.Rounds());
    Victor(c.First().units, c.First().champions, c.now.units, c.now.champions, t);
  }
}
