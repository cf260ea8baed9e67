/** Pooling a garrison into one champion per coalition, unit by unit, in any order. */
module Pooling {
  import opened StringOrder
  import opened Diplomacy
  import opened Coalitions
  import opened Units
  import opened Fights
  import opened Bouts
  import opened MatchState
  import opened Colours
  import opened Router

  /** The units of s pooled by coalition: one champion each, holding its side's hit points and
      the colours and type of one of them that can lend them; the others are gone. */
  ghost predicate Pooled(coal: map<string, string>, before: UnitTable, s: set<string>,
                         after: UnitTable, champions: map<string, string>)
    requires s <= before.Keys
  {
    && (forall id {:trigger before[id]} | id in s :: before[id].owner in coal && coal[before[id].owner] in champions)
    && (forall k {:trigger champions[k]} | k in champions :: ChampionOf(coal, before, s, after, k, champions[k]))
    && (forall id {:trigger after[id]} | id in before && id !in s :: id in after && after[id] == before[id])
    && after.Keys == before.Keys - s + champions.Values
  }

  ghost predicate ChampionOf(coal: map<string, string>, before: UnitTable, s: set<string>,
                             after: UnitTable, k: string, id: string)
    requires s <= before.Keys
  {
    && id in Side(coal, before, s, k) && id in after
    && after[id] == before[id].(hp := HpTotal(before, Side(coal, before, s, k)), owner := after[id].owner,
        kind := after[id].kind)
    && exists m :: Lends(coal, before, s, k, m, after[id])
  }

  /** m is the unit of side k whose owner and type the champion shows; in some order of meeting it
      is m that lends them. */
  ghost predicate Lends(coal: map<string, string>, before: UnitTable, s: set<string>, k: string, m: string, u: Unit)
    requires s <= before.Keys
  {
    && m in Side(coal, before, s, k) && CanLend(before, Side(coal, before, s, k), m)
    && u.owner == before[m].owner && u.kind == before[m].kind
  }

  /** The units left, and the champions by coalition. */
  type Pool = (UnitTable, map<string, string>)

  /** One unit joins the pool: it becomes its coalition's champion, or gives its hit points to
      the champion, lending it its colours when it brings more than half of the total. */
  function Join(units: UnitTable, champions: map<string, string>, x: string, k: string): (r: Pool)
    requires x in units && (k in champions ==> champions[k] in units)
  {
    if k !in champions then (units, champions[k := x])
    else
      var id := champions[k];
      (units[id := Merge(units[id], units[x])] - {x}, champions)
  }

  lemma SideOneMore(coal: map<string, string>, before: UnitTable, s: set<string>, x: string, k: string)
    requires x in before && x !in s && before[x].owner in coal
    ensures Side(coal, before, s + {x}, k)
         == Side(coal, before, s, k) + (if coal[before[x].owner] == k then {x} else {})
  {
  }

  /** The total of a side after x has joined it. */
  lemma TotalOneMore(coal: map<string, string>, before: UnitTable, s: set<string>, x: string)
    requires s <= before.Keys && x in before && x !in s && before[x].owner in coal
    ensures var k := coal[before[x].owner];
            HpTotal(before, Side(coal, before, s + {x}, k)) == HpTotal(before, Side(coal, before, s, k)) + before[x].hp
  {
    var k := coal[before[x].owner];
    SideOneMore(coal, before, s, x, k);
    var side := Side(coal, before, s, k);
    HpTotalWithout(before, side + {x}, x);
    assert side + {x} - {x} == side;
  }

  /** Champions of coalitions other than x's are unaffected. */
  lemma OtherChampionsStay(coal: map<string, string>, before: UnitTable, s: set<string>, after: UnitTable,
                           after': UnitTable, x: string, j: string, id: string)
    requires s <= before.Keys && x in before && x !in s && before[x].owner in coal && coal[before[x].owner] != j
    requires ChampionOf(coal, before, s, after, j, id) && id in after' && after'[id] == after[id]
    ensures ChampionOf(coal, before, s + {x}, after', j, id)
  {
    hide CanLend, HpTotal;
    SideOneMore(coal, before, s, x, j);
    assert Side(coal, before, s + {x}, j) == Side(coal, before, s, j);
    var m :| Lends(coal, before, s, j, m, after[id]);
    assert Lends(coal, before, s + {x}, j, m, after'[id]);
  }

  /** The champion of x's coalition holds one more share. */
  lemma ChampionGrows(coal: map<string, string>, before: UnitTable, s: set<string>, after: UnitTable,
                      champions: map<string, string>, x: string, k: string)
    requires s <= before.Keys && x in before && x !in s && x in after && after[x] == before[x]
    requires before[x].owner in coal && k == coal[before[x].owner]
    requires k in champions && ChampionOf(coal, before, s, after, k, champions[k])
    ensures ChampionOf(coal, before, s + {x}, Join(after, champions, x, k).0, k, champions[k])
  {
    hide CanLend, HpTotal;
    SideOneMore(coal, before, s, x, k);
    TotalOneMore(coal, before, s, x);
    var id, side := champions[k], Side(coal, before, s, k);
    var after' := Join(after, champions, x, k).0;
    var m :| Lends(coal, before, s, k, m, after[id]);
    LenderOfOneMore(before, side, m, x);
    assert Lends(coal, before, s + {x}, k, if before[x].hp > (after[id].hp + before[x].hp) / 2.0 then x else m,
        after'[id]);
  }

  lemma FirstOfItsSide(coal: map<string, string>, before: UnitTable, s: set<string>, after: UnitTable, x: string,
      k: string)
    requires s <= before.Keys && x in before && x !in s && x in after && after[x] == before[x]
    requires before[x].owner in coal && k == coal[before[x].owner] && Side(coal, before, s, k) == {}
    ensures ChampionOf(coal, before, s + {x}, after, k, x)
  {
    hide CanLend;
    SideOneMore(coal, before, s, x, k);
    HpTotalWithout(before, {x}, x);
    LoneLender(before, x);
    assert {x} - {x} == {};
    assert Side(coal, before, s + {x}, k) == {x};
    assert Lends(coal, before, s + {x}, k, x, after[x]);
  }

  lemma JoinKeepsChampion(coal: map<string, string>, before: UnitTable, s: set<string>, after: UnitTable,
                          champions: map<string, string>, x: string, k: string, j: string)
    requires s <= before.Keys && x in before && x !in s && Pooled(coal, before, s, after, champions)
    requires x in after && after[x] == before[x] && before[x].owner in coal && k == coal[before[x].owner]
    requires forall i | i in champions :: champions[i] in after && champions[i] in s
    requires j in Join(after, champions, x, k).1
    ensures ChampionOf(coal, before, s + {x}, Join(after, champions, x, k).0, j, Join(after, champions, x, k).1[j])
  {
    hide CanLend, HpTotal;
    if j != k {
      assert ChampionOf(coal, before, s, after, j, champions[j]);
      if k in champions {
        assert ChampionOf(coal, before, s, after, k, champions[k]);
      }
      OtherChampionsStay(coal, before, s, after, Join(after, champions, x, k).0, x, j, champions[j]);
    } else if k in champions {
      assert ChampionOf(coal, before, s, after, k, champions[k]);
      ChampionGrows(coal, before, s, after, champions, x, k);
    } else {
      assert Side(coal, before, s, k) == {};
      FirstOfItsSide(coal, before, s, after, x, k);
    }
  }

  /** Champions are of their own side, so those of different sides are different units. */
  lemma ChampionsAreMembers(coal: map<string, string>, before: UnitTable, s: set<string>, after: UnitTable,
                            champions: map<string, string>)
    requires s <= before.Keys && Pooled(coal, before, s, after, champions)
    ensures forall k | k in champions :: champions[k] in s && champions[k] in after
    ensures forall k | k in champions :: before[champions[k]].owner in coal && coal[before[champions[k]].owner] == k
  {
    hide CanLend, HpTotal, Lends;
    forall k | k in champions
      ensures champions[k] in s && champions[k] in after
      ensures before[champions[k]].owner in coal && coal[before[champions[k]].owner] == k
    {
      assert ChampionOf(coal, before, s, after, k, champions[k]);
    }
  }

  lemma JoinKeepsPooled(coal: map<string, string>, before: UnitTable, s: set<string>, after: UnitTable,
                        champions: map<string, string>, x: string, k: string)
    requires s <= before.Keys && x in before && x !in s && Pooled(coal, before, s, after, champions)
    requires before[x].owner in coal && k == coal[before[x].owner]
    ensures x in after && after[x] == before[x]
    ensures forall i | i in champions :: champions[i] in after && champions[i] in s
    ensures Pooled(coal, before, s + {x}, Join(after, champions, x, k).0, Join(after, champions, x, k).1)
  {
    hide ChampionOf;
    assert after[x] == before[x];
    ChampionsAreMembers(coal, before, s, after, champions);
    forall j | j in Join(after, champions, x, k).1 {
      JoinKeepsChampion(coal, before, s, after, champions, x, k, j);
    }
    JoinKeepsKeys(before, s, after, champions, x, k);
  }

  lemma JoinKeepsKeys(before: UnitTable, s: set<string>, after: UnitTable, champions: map<string, string>, x: string,
      k: string)
    requires s <= before.Keys && x in before && x !in s && x in after
    requires after.Keys == before.Keys - s + champions.Values
    requires forall i | i in champions :: champions[i] in after && champions[i] in s
    ensures var r := Join(after, champions, x, k); r.0.Keys == before.Keys - (s + {x}) + r.1.Values
  {
    var r := Join(after, champions, x, k);
    if k in champions {
      assert champions[k] in champions.Values;
      assert x !in champions.Values;
    } else {
      assert r.1[k] == x;
      forall y
        ensures y in r.1.Values <==> y in champions.Values || y == x
      {
        if y in champions.Values {
          var i :| i in champions && champions[i] == y;
          assert r.1[i] == y;
        }
      }
    }
  }

  lemma {:induction false} HpPositive(before: UnitTable, s: set<string>)
    requires s <= before.Keys && forall id | id in s :: before[id].hp > 0.0
    ensures 0.0 <= HpTotal(before, s) && (s != {} ==> HpTotal(before, s) > 0.0)
    decreases s
  {
    if s == {} {
    } else {
      var id :| id in s;
      HpTotalWithout(before, s, id);
      HpPositive(before, s - {id});
    }
  }

  /** A coalition id is its own coalition's id. */
  ghost predicate Idempotent(coal: map<string, string>) {
    forall o {:trigger coal[coal[o]]} | o in coal && coal[o] in coal :: coal[coal[o]] == coal[o]
  }

  lemma CoalsIdempotent(l: Ledger, all: set<string>)
    ensures Idempotent(Coals(l, all))
    ensures NoAlliances(l, all) ==> forall o | o in all :: Coals(l, all)[o] == o
  {
    forall o | o in all
      ensures CoalId(l, all, CoalId(l, all, o)) == CoalId(l, all, o)
      ensures NoAlliances(l, all) ==> CoalId(l, all, o) == o
    {
      IdOfIdIsId(l, all, o);
      if NoAlliances(l, all) {
        WithoutAlliancesEachIsAlone(l, all, o);
      }
    }
  }

  /** What the fight needs to know about one pooled champion. */
  lemma ChampionIsReady(coal: map<string, string>, before: UnitTable, s: set<string>, after: UnitTable, k: string,
      id: string)
    requires s <= before.Keys && ChampionOf(coal, before, s, after, k, id)
    requires forall m | m in s :: before[m].hp > 0.0
    ensures after[id].hp > 0.0 && after[id].owner in coal && coal[after[id].owner] == k
  {
    hide CanLend, HpTotal;
    HpPositive(before, Side(coal, before, s, k));
  }

  /** A pooled garrison is ready to fight. */
  lemma PooledIsReady(coal: map<string, string>, before: UnitTable, s: set<string>, after: UnitTable,
      champions: map<string, string>)
    requires s <= before.Keys && Pooled(coal, before, s, after, champions) && Idempotent(coal)
    requires champions != map[] && forall id | id in s :: before[id].hp > 0.0
    ensures MayFight(Bout(after, champions))
    ensures (forall o | o in coal :: coal[o] == o) ==> Settles(ArenaOf(after, champions))
  {
    var arena := ArenaOf(after, champions);
    forall k | k in champions
      ensures champions[k] in after && champions[k] in s
      ensures before[champions[k]].owner in coal && coal[before[champions[k]].owner] == k
      ensures arena[k].hp > 0.0 && arena[k].owner in coal && coal[arena[k].owner] == k
    {
      assert ChampionOf(coal, before, s, after, k, champions[k]);
      ChampionIsReady(coal, before, s, after, k, champions[k]);
    }
    forall k | k in arena && arena[k].owner in arena
      ensures arena[k].owner == k
    {
      var o := arena[k].owner;
      assert coal[before[champions[o]].owner] == o;
    }
  }

  /** The outcome of a battle among the units of s: one unit w is left, holding all the hit
      points of its coalition, which no other coalition's total exceeded, under the colours of
      one of its side; nobody outside s is touched. */
  ghost predicate Battle(coal: map<string, string>, before: UnitTable, s: set<string>, after: UnitTable, w: string)
    requires s <= before.Keys
  {
    && w in s && before[w].owner in coal
    && after.Keys == before.Keys - s + {w}
    && (forall id {:trigger after[id]} | id in after && id != w :: after[id] == before[id])
    && ChampionOf(coal, before, s, after, coal[before[w].owner], w)
    && forall id {:trigger before[id]} | id in s ::
         before[id].owner in coal && HpTotal(before, Side(coal, before, s, coal[before[id].owner])) <= after[w].hp
  }

  lemma ChampionsHoldTheTotals(coal: map<string, string>, before: UnitTable, s: set<string>, pooled: UnitTable,
                               champs: map<string, string>)
    requires s <= before.Keys && Pooled(coal, before, s, pooled, champs)
    ensures forall k {:trigger champs[k]} | k in champs ::
        champs[k] in s && champs[k] in pooled && pooled[champs[k]].hp == HpTotal(before, Side(coal, before, s, k))
    ensures champs.Values <= s
  {
    hide HpTotal, ChampionOf, Side, Pooled;
    forall k | k in champs
      ensures champs[k] in s && champs[k] in pooled && pooled[champs[k]].hp == HpTotal(before, Side(coal, before, s, k))
    {
      HoldsTheTotal(coal, before, s, pooled, champs, k);
    }
  }

  lemma HoldsTheTotal(coal: map<string, string>, before: UnitTable, s: set<string>, pooled: UnitTable,
                      champs: map<string, string>, k: string)
    requires s <= before.Keys && Pooled(coal, before, s, pooled, champs) && k in champs
    ensures champs[k] in s && champs[k] in pooled && pooled[champs[k]].hp == HpTotal(before, Side(coal, before, s, k))
  {
    hide HpTotal, Side, Lends;
    assert ChampionOf(coal, before, s, pooled, k, champs[k]);
  }

  lemma TheTopHasTheLargestTotal(coal: map<string, string>, before: UnitTable, s: set<string>, pooled: UnitTable,
                                 champs: map<string, string>, t: string)
    requires s <= before.Keys && Pooled(coal, before, s, pooled, champs) && t in champs && champs[t] in pooled
    requires UnhurtTop(ArenaOf(pooled, champs), ArenaOf(pooled, champs), t)
    ensures forall id {:trigger before[id]} | id in s ::
        && before[id].owner in coal
        && HpTotal(before, Side(coal, before, s, coal[before[id].owner])) <= pooled[champs[t]].hp
  {
    hide HpTotal, Side, Pooled, UnhurtTop, ArenaOf;
    forall id | id in s
      ensures before[id].owner in coal
      ensures HpTotal(before, Side(coal, before, s, coal[before[id].owner])) <= pooled[champs[t]].hp
    {
      OneTotalIsNotLarger(coal, before, s, pooled, champs, t, id);
    }
  }

  lemma OneTotalIsNotLarger(coal: map<string, string>, before: UnitTable, s: set<string>, pooled: UnitTable,
                            champs: map<string, string>, t: string, id: string)
    requires s <= before.Keys && Pooled(coal, before, s, pooled, champs) && t in champs && champs[t] in pooled
    requires UnhurtTop(ArenaOf(pooled, champs), ArenaOf(pooled, champs), t) && id in s
    ensures before[id].owner in coal
    ensures HpTotal(before, Side(coal, before, s, coal[before[id].owner])) <= pooled[champs[t]].hp
  {
    hide HpTotal, Side, ChampionOf;
    var k := coal[before[id].owner];
    HoldsTheTotal(coal, before, s, pooled, champs, k);
    assert k in ArenaOf(pooled, champs);
  }

  lemma UnpooledIsUntouched(coal: map<string, string>, before: UnitTable, s: set<string>, after: UnitTable,
                            champs: map<string, string>, id: string)
    requires s <= before.Keys && Pooled(coal, before, s, after, champs) && id in before && id !in s
    ensures id in after && after[id] == before[id]
  {
  }

  lemma OnlyTheWinnerIsLeft(coal: map<string, string>, before: UnitTable, s: set<string>, pooled: UnitTable,
                            champs: map<string, string>, after: UnitTable, last: map<string, string>, t: string)
    requires s <= before.Keys && Pooled(coal, before, s, pooled, champs) && Won(pooled, champs, after, last, t)
    ensures champs[t] in s && champs[t] in after && after[champs[t]] == pooled[champs[t]]
    ensures after.Keys == before.Keys - s + {champs[t]}
    ensures forall id {:trigger after[id]} | id in after && id != champs[t] :: after[id] == before[id]
  {
    hide HpTotal, Side, ArenaOf, UnhurtTop, ChampionOf, Pooled;
    ChampionsHoldTheTotals(coal, before, s, pooled, champs);
    PooledKeys(coal, before, s, pooled, champs);
    assert champs[t] in champs.Values;
    KeysLeft(before.Keys, s, champs.Values, champs[t]);
    forall id | id in after && id != champs[t]
      ensures after[id] == before[id]
    {
      UnpooledIsUntouched(coal, before, s, pooled, champs, id);
    }
  }

  lemma PooledKeys(coal: map<string, string>, before: UnitTable, s: set<string>, after: UnitTable,
                   champs: map<string, string>)
    requires s <= before.Keys && Pooled(coal, before, s, after, champs)
    ensures after.Keys == before.Keys - s + champs.Values
  {
  }

  /** Of s only the champions are left, and of these only w. */
  lemma KeysLeft(keys: set<string>, s: set<string>, values: set<string>, w: string)
    requires s <= keys && values <= s && w in values
    ensures keys - s + values - (values - {w}) == keys - s + {w}
  {
  }

  lemma BattleIsDecided(coal: map<string, string>, before: UnitTable, s: set<string>, pooled: UnitTable,
                        champs: map<string, string>, after: UnitTable, last: map<string, string>, t: string)
    requires s <= before.Keys && Pooled(coal, before, s, pooled, champs) && Won(pooled, champs, after, last, t)
    ensures last.Keys == {t} && last[t] in after && Battle(coal, before, s, after, last[t])
  {
    hide HpTotal, Side, ChampionOf, ArenaOf, UnhurtTop;
    OnlyTheWinnerIsLeft(coal, before, s, pooled, champs, after, last, t);
    assert ChampionOf(coal, before, s, pooled, t, champs[t]);
    TheTopHasTheLargestTotal(coal, before, s, pooled, champs, t);
    WinnerIsChampion(coal, before, s, pooled, after, t, champs[t]);
  }

  lemma WinnerIsChampion(coal: map<string, string>, before: UnitTable, s: set<string>, pooled: UnitTable,
      after: UnitTable,
                         t: string, w: string)
    requires s <= before.Keys && ChampionOf(coal, before, s, pooled, t, w) && w in after && after[w] == pooled[w]
    ensures before[w].owner in coal && t == coal[before[w].owner] && ChampionOf(coal, before, s, after, t, w)
  {
    hide CanLend, HpTotal;
    var m :| Lends(coal, before, s, t, m, pooled[w]);
    assert Lends(coal, before, s, t, m, after[w]);
  }

  lemma BattleTrims(coal: map<string, string>, before: UnitTable, s: set<string>, after: UnitTable, w: string)
    requires s <= before.Keys && Battle(coal, before, s, after, w)
    ensures Trimmed(before, after)
    ensures exists m :: m in before && after[w].owner == before[m].owner
  {
    hide CanLend, HpTotal;
    var m :| Lends(coal, before, s, coal[before[w].owner], m, after[w]);
  }
}
