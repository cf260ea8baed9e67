/** Pooling and fighting over a whole garrison, in every order in which its units can be met: whose
    colours a champion shows, and which garrisons may fight for ever. */
module Perils {
  import opened StringOrder
  import opened Diplomacy
  import opened Coalitions
  import opened Units
  import opened Fights
  import opened Bouts
  import opened MatchState
  import opened Colours
  import opened Router
  import opened Pooling

  ghost predicate Poolable(coal: map<string, string>, units: UnitTable, p: seq<string>) {
    Simple(p) && Elements(p) <= units.Keys && forall id | id in Elements(p) :: units[id].owner in coal
  }

  lemma PoolableBefore(coal: map<string, string>, units: UnitTable, p: seq<string>)
    requires p != [] && Poolable(coal, units, p)
    ensures var n := |p| - 1;
            && Poolable(coal, units, p[..n]) && p[n] in units && p[n] !in Elements(p[..n])
            && units[p[n]].owner in coal && Elements(p) == Elements(p[..n]) + {p[n]}
  {
    BeforeTheLast(p);
  }

  /** The units pooled in the order in which they are met. */
  ghost function PoolAll(coal: map<string, string>, units: UnitTable, p: seq<string>): (r: Pool)
    requires Poolable(coal, units, p)
    ensures Pooled(coal, units, Elements(p), r.0, r.1)
  {
    if p == [] then PooledNobody(coal, units); (units, map[])
    else
      var n, k := |p| - 1, (PoolableBefore(coal, units, p); coal[units[p[|p| - 1]].owner]);
      var r := PoolAll(coal, units, p[..n]);
      JoinKeepsPooled(coal, units, Elements(p[..n]), r.0, r.1, p[n], k);
      Join(r.0, r.1, p[n], k)
  }

  lemma PooledNobody(coal: map<string, string>, units: UnitTable)
    ensures Pooled(coal, units, {}, units, map[]) && Elements([]) == {}
  {
  }

  lemma PoolableUpTo(coal: map<string, string>, units: UnitTable, p: seq<string>, i: nat)
    requires Poolable(coal, units, p) && i < |p|
    ensures Poolable(coal, units, p[..i]) && Poolable(coal, units, p[..i + 1])
    ensures p[..i + 1] == p[..i] + [p[i]] && p[i] !in Elements(p[..i])
  {
  }

  /** The next unit met is still as it was. */
  lemma ReadyToJoin(coal: map<string, string>, units: UnitTable, p: seq<string>, x: string)
    requires Poolable(coal, units, p) && Poolable(coal, units, p + [x]) && x !in Elements(p)
    ensures var r := PoolAll(coal, units, p);
            && x in r.0 && r.0[x] == units[x] && x in units && units[x].owner in coal
            && (forall k | k in r.1 :: r.1[k] in r.0)
            && PoolAll(coal, units, p + [x]) == Join(r.0, r.1, x, coal[units[x].owner])
  {
    hide Pooled, Join, PoolAll;
    var r := PoolAll(coal, units, p);
    assert x in Elements(p + [x]);
    UnpooledIsUntouched(coal, units, Elements(p), r.0, r.1, x);
    ChampionsAreMembers(coal, units, Elements(p), r.0, r.1);
    PoolOneMore(coal, units, p, x);
  }

  lemma PoolOneMore(coal: map<string, string>, units: UnitTable, p: seq<string>, x: string)
    requires Poolable(coal, units, p) && Poolable(coal, units, p + [x]) && x in units && units[x].owner in coal
    requires forall k | k in PoolAll(coal, units, p).1 :: PoolAll(coal, units, p).1[k] in PoolAll(coal, units, p).0
    requires x in PoolAll(coal, units, p).0
    ensures var r := PoolAll(coal, units, p);
            PoolAll(coal, units, p + [x]) == Join(r.0, r.1, x, coal[units[x].owner])
  {
    hide Pooled, Join;
    assert (p + [x])[..|p|] == p;
  }

  /** The champions of a garrison met in that order, as the fight sees them. */
  ghost function PoolArena(coal: map<string, string>, units: UnitTable, p: seq<string>): Arena
    requires Poolable(coal, units, p)
  {
    var r := PoolAll(coal, units, p);
    ArenaOf(r.0, r.1)
  }

  /** The units of side k, in the order in which they are met. */
  ghost function Met(coal: map<string, string>, units: UnitTable, p: seq<string>, k: string): (met: seq<string>)
    requires Elements(p) <= units.Keys
    ensures Elements(met) <= Elements(p)
  {
    if p == [] then []
    else
      var n, u := |p| - 1, units[p[|p| - 1]];
      Met(coal, units, p[..n], k) + (if u.owner in coal && coal[u.owner] == k then [p[n]] else [])
  }

  lemma {:induction false} MetIsSide(coal: map<string, string>, units: UnitTable, p: seq<string>, k: string)
    requires Poolable(coal, units, p)
    ensures Simple(Met(coal, units, p, k)) && Elements(Met(coal, units, p, k)) == Side(coal, units, Elements(p), k)
    decreases |p|
  {
    if p == [] {
    } else {
      hide Side, Poolable, Elements;
      var n := |p| - 1;
      PoolableBefore(coal, units, p);
      MetIsSide(coal, units, p[..n], k);
      SideOneMore(coal, units, Elements(p[..n]), p[n], k);
      SimplyOneMore(Met(coal, units, p[..n], k), p[n]);
    }
  }

  lemma SimplyOneMore(p: seq<string>, x: string)
    requires Simple(p) && x !in Elements(p)
    ensures Simple(p + [x]) && Elements(p + [x]) == Elements(p) + {x} && Simple(p + []) && p + [] == p
  {
    assert x !in p;
  }

  /** There is a champion of k exactly when a unit of side k has been met. */
  lemma MetSidesHaveChampions(coal: map<string, string>, units: UnitTable, p: seq<string>, k: string)
    requires Poolable(coal, units, p)
    ensures k in PoolAll(coal, units, p).1 <==> Met(coal, units, p, k) != []
    ensures k in PoolAll(coal, units, p).1 <==> Side(coal, units, Elements(p), k) != {}
  {
    hide PoolAll, Met;
    var r, met := PoolAll(coal, units, p), Met(coal, units, p, k);
    MetIsSide(coal, units, p, k);
    EmptyElements(met);
    ChampionsAreMembers(coal, units, Elements(p), r.0, r.1);
    if k in r.1 {
      assert r.1[k] in Side(coal, units, Elements(p), k);
    }
    if Side(coal, units, Elements(p), k) != {} {
      var x :| x in Side(coal, units, Elements(p), k);
      assert x in Elements(p);
    }
  }

  /** The champion of a side is what its units merge into in the order in which they are met. */
  ghost predicate Merges(coal: map<string, string>, units: UnitTable, p: seq<string>, r: Pool, k: string)
    requires Elements(p) <= units.Keys
  {
    var met := Met(coal, units, p, k);
    met != [] && k in r.1 && r.1[k] == met[0] && r.1[k] in r.0 && r.0[r.1[k]] == Merged(units, met)
  }

  lemma {:induction false} ChampionIsMerged(coal: map<string, string>, units: UnitTable, p: seq<string>, k: string)
    requires Poolable(coal, units, p) && k in PoolAll(coal, units, p).1
    ensures Merges(coal, units, p, PoolAll(coal, units, p), k)
    decreases |p|
  {
    hide Poolable, Pooled, Side, Merge, Merged;
    if p == [] {
      assert false;
    } else {
      var n := |p| - 1;
      PoolableBefore(coal, units, p);
      var r := PoolAll(coal, units, p[..n]);
      UnpooledIsUntouched(coal, units, Elements(p[..n]), r.0, r.1, p[n]);
      ChampionsAreMembers(coal, units, Elements(p[..n]), r.0, r.1);
      MetSidesHaveChampions(coal, units, p[..n], k);
      if k in r.1 {
        ChampionIsMerged(coal, units, p[..n], k);
      }
      JoinMerges(coal, units, p, r, k);
    }
  }

  /** One more unit joins the champions of the others. */
  lemma JoinMerges(coal: map<string, string>, units: UnitTable, p: seq<string>, r: Pool, k: string)
    requires p != [] && Poolable(coal, units, p) && Poolable(coal, units, p[..|p| - 1])
    requires p[|p| - 1] in r.0 && r.0[p[|p| - 1]] == units[p[|p| - 1]] && p[|p| - 1] !in Elements(p[..|p| - 1])
    requires forall j | j in r.1 :: r.1[j] in Elements(p[..|p| - 1]) && r.1[j] in r.0
    requires forall j | j in r.1 :: coal[units[r.1[j]].owner] == j
    requires if k in r.1 then Merges(coal, units, p[..|p| - 1], r, k) else Met(coal, units, p[..|p| - 1], k) == []
    requires k in r.1 || k == coal[units[p[|p| - 1]].owner]
    ensures Merges(coal, units, p, Join(r.0, r.1, p[|p| - 1], coal[units[p[|p| - 1]].owner]), k)
  {
    hide Merge, Merged, Simple;
    var n, x, j := |p| - 1, p[|p| - 1], coal[units[p[|p| - 1]].owner];
    var met := Met(coal, units, p[..n], k);
    assert met + [] == met;
    if j == k {
      assert Met(coal, units, p, k) == met + [x];
      MergedOneMore(units, met, x);
    } else {
      assert r.1[k] != x;
    }
  }

  lemma MergedOneMore(units: UnitTable, p: seq<string>, x: string)
    requires Elements(p) <= units.Keys && x in units
    ensures Elements(p + [x]) <= units.Keys
    ensures Merged(units, p + [x]) == if p == [] then units[x] else Merge(Merged(units, p), units[x])
  {
    hide Merge;
    assert (p + [x])[..|p|] == p;
  }

  // ---------- garrisons that may never stop fighting ----------

  /** m may lend the champion of its side, which m's slot does not lead, its colours; and the side
      of o is another one that is at least as strong. */
  ghost predicate Imperils(coal: map<string, string>, units: UnitTable, s: set<string>, m: string, o: string)
    requires s <= units.Keys
  {
    && m in s && o in s && units[m].owner in coal && units[o].owner in coal
    && var k, j := coal[units[m].owner], coal[units[o].owner];
    && k != units[m].owner && j != k
    && MayLend(units, Side(coal, units, s, k), m)
    && HpTotal(units, Side(coal, units, s, k)) <= HpTotal(units, Side(coal, units, s, j))
  }

  /** Some unit of a slot that does not lead its coalition may lend its side's champion its colours,
      and that side is not stronger than every other. */
  ghost predicate Perilous(coal: map<string, string>, units: UnitTable, s: set<string>)
    requires s <= units.Keys
  {
    exists m, o :: Imperils(coal, units, s, m, o)
  }

  /** A pooled garrison whose fight need not end was perilous. */
  lemma UnsettledWasPerilous(coal: map<string, string>, before: UnitTable, s: set<string>, after: UnitTable,
                             champions: map<string, string>)
    requires Living(before, s) && Pooled(coal, before, s, after, champions)
    requires !Settles(ArenaOf(after, champions))
    ensures Perilous(coal, before, s)
  {
    hide CanLend, MayLend, HpTotal, Side, ChampionOf;
    var f := ArenaOf(after, champions);
    var k :| k in f && f[k].owner != k && !forall j | j in f && j != k :: f[j].hp < f[k].hp;
    var j :| j in f && j != k && f[k].hp <= f[j].hp;
    assert ChampionOf(coal, before, s, after, k, champions[k]);
    assert ChampionOf(coal, before, s, after, j, champions[j]);
    var m := Shown(coal, before, s, after, k, champions[k]);
    ChampionsHoldTheTotals(coal, before, s, after, champions);
    ChampionsAreMembers(coal, before, s, after, champions);
    assert Imperils(coal, before, s, m, champions[j]);
  }

  /** The unit whose colours a champion shows. */
  lemma Shown(coal: map<string, string>, before: UnitTable, s: set<string>, after: UnitTable, k: string, id: string)
    returns (m: string)
    requires Living(before, s) && ChampionOf(coal, before, s, after, k, id)
    ensures m in s && before[m].owner in coal && coal[before[m].owner] == k
    ensures after[id].owner == before[m].owner && MayLend(before, Side(coal, before, s, k), m)
  {
    hide CanLend, MayLend, HpTotal;
    m :| Lends(coal, before, s, k, m, after[id]);
    LendersAreNotOutweighed(before, Side(coal, before, s, k), m);
  }

  lemma {:induction false} MetJoins(coal: map<string, string>, units: UnitTable, a: seq<string>, b: seq<string>,
      k: string)
    requires Elements(a + b) <= units.Keys && Elements(a) <= units.Keys && Elements(b) <= units.Keys
    ensures Met(coal, units, a + b, k) == Met(coal, units, a, k) + Met(coal, units, b, k)
    decreases |b|
  {
    if b == [] {
      assert a + b == a;
    } else {
      var n := |b| - 1;
      assert (a + b)[..|a + b| - 1] == a + b[..n];
      MetJoins(coal, units, a, b[..n], k);
    }
  }

  lemma {:induction false} MetAll(coal: map<string, string>, units: UnitTable, p: seq<string>, k: string)
    requires Elements(p) <= units.Keys
    ensures Elements(p) <= Side(coal, units, Elements(p), k) ==> Met(coal, units, p, k) == p
    ensures Side(coal, units, Elements(p), k) == {} ==> Met(coal, units, p, k) == []
    decreases |p|
  {
    if p == [] {
    } else {
      var n := |p| - 1;
      assert p == p[..n] + [p[n]];
      assert p[n] in Elements(p) && Elements(p) == Elements(p[..n]) + {p[n]};
      assert Side(coal, units, Elements(p[..n]), k) <= Side(coal, units, Elements(p), k);
      assert p[n] in Side(coal, units, Elements(p), k) <==> units[p[n]].owner in coal && coal[units[p[n]].owner] == k;
      MetAll(coal, units, p[..n], k);
    }
  }

  lemma OneAfterTheOther(a: seq<string>, b: seq<string>)
    requires Simple(a) && Simple(b) && Elements(a) !! Elements(b)
    ensures Simple(a + b) && Elements(a + b) == Elements(a) + Elements(b)
  {
    forall i, j | 0 <= i < |a| && 0 <= j < |b|
      ensures a[i] != b[j]
    {
      assert a[i] in Elements(a) && b[j] in Elements(b);
    }
  }

  /** Every order of a side is that in which it is met in some order of the garrison. */
  lemma OrderOfSide(coal: map<string, string>, units: UnitTable, s: set<string>, k: string, q: seq<string>)
    returns (p: seq<string>)
    requires s <= units.Keys && (forall id | id in s :: units[id].owner in coal) && Orders(q, Side(coal, units, s, k))
    ensures Orders(p, s) && Met(coal, units, p, k) == q
  {
    hide Met;
    var side := Side(coal, units, s, k);
    var rest := s - side;
    assert Side(coal, units, side, k) == side;
    MetAll(coal, units, q, k);
    assert side + rest == s;
    if rest == {} {
      assert side == s;
      p := q;
    } else {
      var x :| x in rest;
      var b := SomeOrder(rest, x);
      p := q + b;
      OneAfterTheOther(q, b);
      assert Side(coal, units, rest, k) == {};
      MetAll(coal, units, b, k);
      MetJoins(coal, units, q, b, k);
    }
  }

  /** All owners are known, everyone is alive, and somebody is there. */
  ghost predicate Stands(coal: map<string, string>, units: UnitTable, s: set<string>) {
    s != {} && Living(units, s) && forall id | id in s :: units[id].owner in coal
  }

  lemma GarrisonStands(l: Ledger, all: set<string>, units: UnitTable, p: string, at: int)
    requires forall id | id in units :: units[id].owner in all
    ensures Garrison(units, p, at) != {} ==> Stands(Coals(l, all), units, Garrison(units, p, at))
  {
  }

  /** From a perilous garrison some order of meeting leads to a fight that need not end. */
  lemma PerilCanCome(coal: map<string, string>, units: UnitTable, s: set<string>) returns (p: seq<string>)
    requires Stands(coal, units, s) && Perilous(coal, units, s)
    ensures Orders(p, s) && !Settles(PoolArena(coal, units, p))
  {
    hide MayLend, HpTotal, PoolArena, Met, Side, Settles, Lender, Simple;
    var m, o :| Imperils(coal, units, s, m, o);
    var k, j := coal[units[m].owner], coal[units[o].owner];
    var q := WeakOnesFirst(units, Side(coal, units, s, k), m);
    p := OrderOfSide(coal, units, s, k, q);
    PoolShows(coal, units, p, k);
    PoolShows(coal, units, p, j);
    SideHasMember(coal, units, s, m);
    SideHasMember(coal, units, s, o);
    Misled(PoolArena(coal, units, p), k, j);
  }

  lemma Misled(f: Arena, k: string, j: string)
    requires k in f && j in f && j != k && f[k].owner != k && f[k].hp <= f[j].hp
    ensures !Settles(f)
  {
  }

  lemma SideHasMember(coal: map<string, string>, units: UnitTable, s: set<string>, m: string)
    requires m in s && m in units && units[m].owner in coal
    ensures m in Side(coal, units, s, coal[units[m].owner])
  {
  }

  /** The champion of a side has all its hit points, under the colours of the lender of its units as
      they are met. */
  lemma PoolShows(coal: map<string, string>, units: UnitTable, p: seq<string>, k: string)
    requires Poolable(coal, units, p)
    ensures Orders(Met(coal, units, p, k), Side(coal, units, Elements(p), k)) <==> k in PoolArena(coal, units, p)
    ensures k in PoolArena(coal, units, p) <==> Side(coal, units, Elements(p), k) != {}
    ensures k in PoolArena(coal, units, p) ==>
        PoolArena(coal, units, p)[k].owner == units[Lender(units, Met(coal, units, p, k))].owner
        && PoolArena(coal, units, p)[k].hp == HpTotal(units, Side(coal, units, Elements(p), k))
  {
    hide PoolAll, Met, Merged, Side, HpTotal, Lender;
    var r, met := PoolAll(coal, units, p), Met(coal, units, p, k);
    ChampionsAreMembers(coal, units, Elements(p), r.0, r.1);
    MetSidesHaveChampions(coal, units, p, k);
    MetIsSide(coal, units, p, k);
    if k in r.1 {
      ChampionIsMerged(coal, units, p, k);
      MergedIsLent(units, met);
    }
  }

  lemma PoolIsReady(coal: map<string, string>, units: UnitTable, p: seq<string>)
    requires Poolable(coal, units, p) && Stands(coal, units, Elements(p)) && Idempotent(coal)
    ensures var f := PoolArena(coal, units, p); f != map[] && Fights.Alive(f) && Unambiguous(f)
  {
    hide PoolAll, Pooled;
    var r := PoolAll(coal, units, p);
    PooledIsNotEmpty(coal, units, Elements(p), r.0, r.1);
    PooledIsReady(coal, units, Elements(p), r.0, r.1);
    ChampionsAreMembers(coal, units, Elements(p), r.0, r.1);
    var k :| k in r.1;
    assert k in PoolArena(coal, units, p);
  }

  lemma PooledIsNotEmpty(coal: map<string, string>, before: UnitTable, s: set<string>, after: UnitTable,
                         champions: map<string, string>)
    requires s <= before.Keys && s != {} && Pooled(coal, before, s, after, champions)
    ensures champions != map[]
  {
    var x :| x in s;
    assert coal[before[x].owner] in champions;
  }

  /** Whatever the order in which its units are met and however ties fall, the fight over a garrison
      is over after a bounded number of rounds: if and only if the garrison is not perilous. */
  lemma FightsEndIffNotPerilous(coal: map<string, string>, units: UnitTable, s: set<string>)
    requires Stands(coal, units, s) && Idempotent(coal)
    ensures (forall p | Orders(p, s) :: exists bound :: OverBy(PoolArena(coal, units, p), bound))
       <==> !Perilous(coal, units, s)
  {
    hide Perilous, PoolAll, Settles, OverBy;
    forall p | Orders(p, s)
      ensures Settles(PoolArena(coal, units, p)) <==> exists bound :: OverBy(PoolArena(coal, units, p), bound)
      ensures !Settles(PoolArena(coal, units, p)) ==> Perilous(coal, units, s)
    {
      PoolIsReady(coal, units, p);
      FightEndsIffSettles(PoolArena(coal, units, p));
      if !Settles(PoolArena(coal, units, p)) {
        UnsettledWasPerilous(coal, units, s, PoolAll(coal, units, p).0, PoolAll(coal, units, p).1);
      }
    }
    if Perilous(coal, units, s) {
      var p := PerilCanCome(coal, units, s);
    }
  }

  /** Whatever the order in which a garrison is met, the champion of a side shows one and the same
      slot: if and only if that slot is sure to show among the units of the side. */
  lemma ChampionsColours(coal: map<string, string>, units: UnitTable, s: set<string>, k: string, slot: string)
    requires Stands(coal, units, s) && Side(coal, units, s, k) != {}
    ensures (forall p | Orders(p, s) :: k in PoolArena(coal, units, p) && PoolArena(coal, units, p)[k].owner == slot)
       <==> SureToShow(units, Side(coal, units, s, k), slot)
  {
    hide PoolArena, Met, Side, HpTotal, SureToShow, Lender;
    var side := Side(coal, units, s, k);
    OneSlotShows(units, side, slot);
    forall p | Orders(p, s)
      ensures k in PoolArena(coal, units, p) && Orders(Met(coal, units, p, k), side)
      ensures PoolArena(coal, units, p)[k].owner == units[Lender(units, Met(coal, units, p, k))].owner
    {
      PoolShows(coal, units, p, k);
    }
    if forall p | Orders(p, s) :: PoolArena(coal, units, p)[k].owner == slot {
      forall q | Orders(q, side)
        ensures units[Lender(units, q)].owner == slot
      {
        var p := OrderOfSide(coal, units, s, k, q);
      }
    }
  }

  /** A unit that may lend its side's champion its colours does so in some order of the garrison. */
  lemma LenderCanShow(coal: map<string, string>, units: UnitTable, s: set<string>, k: string, m: string)
    returns (p: seq<string>)
    requires Stands(coal, units, s) && MayLend(units, Side(coal, units, s, k), m)
    ensures Orders(p, s) && k in PoolArena(coal, units, p) && PoolArena(coal, units, p)[k].owner == units[m].owner
  {
    hide PoolArena, Met, HpTotal, MayLend, Side;
    var q := WeakOnesFirst(units, Side(coal, units, s, k), m);
    p := OrderOfSide(coal, units, s, k, q);
    PoolShows(coal, units, p, k);
  }

  /** Stacks of 8, 9 and 10 of three slots of one coalition: whether the champion shows the slot of the 9
      or that of the 10 is decided by the order in which they are met. */
  lemma OrderDecidesWhoShows(coal: map<string, string>, units: UnitTable, a: string, b: string, c: string, k: string)
    returns (p: seq<string>, q: seq<string>)
    requires a in units && b in units && c in units
    requires units[a].hp == 8.0 && units[b].hp == 9.0 && units[c].hp == 10.0
    requires units[a].owner != units[b].owner && units[b].owner != units[c].owner && units[a].owner != units[c].owner
    requires units[a].owner in coal && units[b].owner in coal && units[c].owner in coal
    requires coal[units[a].owner] == coal[units[b].owner] == coal[units[c].owner] == k
    ensures Orders(p, {a, b, c}) && Orders(q, {a, b, c})
    ensures k in PoolArena(coal, units, p) && PoolArena(coal, units, p)[k].owner == units[b].owner
    ensures k in PoolArena(coal, units, q) && PoolArena(coal, units, q)[k].owner == units[c].owner
  {
    hide PoolArena, HpTotal, MayLend, CanLend;
    var s := {a, b, c};
    StrongestNeedNotShow(units, a, b, c);
    LendersAreNotOutweighed(units, s, b);
    LendersAreNotOutweighed(units, s, c);
    assert Side(coal, units, s, k) == s;
    p := LenderCanShow(coal, units, s, k, b);
    q := LenderCanShow(coal, units, s, k, c);
  }

  /** Without alliances no garrison is perilous. */
  lemma WithoutAlliancesNoPeril(l: Ledger, all: set<string>, units: UnitTable, s: set<string>)
    requires NoAlliances(l, all) && s <= units.Keys
    ensures !Perilous(Coals(l, all), units, s)
  {
    CoalsIdempotent(l, all);
  }

  /** The garrison of a province is perilous. */
  ghost predicate PerilAt(l: Ledger, all: set<string>, units: UnitTable, p: string, at: int) {
    Perilous(Coals(l, all), units, Garrison(units, p, at))
  }

  lemma WithoutAlliancesNoPerilAt(l: Ledger, all: set<string>, units: UnitTable, p: string, at: int)
    requires NoAlliances(l, all)
    ensures !PerilAt(l, all, units, p, at)
  {
    WithoutAlliancesNoPeril(l, all, units, Garrison(units, p, at));
  }

  ghost predicate SameForces(u1: UnitTable, u2: UnitTable, s: set<string>) {
    && s <= u1.Keys && s <= u2.Keys
    && forall id {:trigger u1[id]} {:trigger u2[id]} | id in s :: u1[id].owner == u2[id].owner && u1[id].hp == u2[id].hp
  }

  lemma {:induction false} TotalsAgree(u1: UnitTable, u2: UnitTable, s: set<string>)
    requires SameForces(u1, u2, s)
    ensures HpTotal(u1, s) == HpTotal(u2, s)
    decreases s
  {
    if s == {} {
    } else {
      var id :| id in s;
      HpTotalWithout(u1, s, id);
      HpTotalWithout(u2, s, id);
      TotalsAgree(u1, u2, s - {id});
    }
  }

  lemma LendingAgrees(u1: UnitTable, u2: UnitTable, side: set<string>, m: string)
    requires SameForces(u1, u2, side) && MayLend(u1, side, m)
    ensures MayLend(u2, side, m)
  {
    hide HpTotal;
    forall y | y in side && u2[m].hp < u2[y].hp
      ensures !Outweighs(u2, side, y)
    {
      assert !Outweighs(u1, side, y);
      assert Weaker(u1, side, u1[y].hp) == Weaker(u2, side, u2[y].hp);
      TotalsAgree(u1, u2, Weaker(u1, side, u1[y].hp));
    }
  }

  /** Peril is a matter of owners and hit points alone. */
  lemma PerilIsOfForces(coal: map<string, string>, u1: UnitTable, u2: UnitTable, s: set<string>)
    requires SameForces(u1, u2, s) && Perilous(coal, u1, s)
    ensures Perilous(coal, u2, s)
  {
    hide HpTotal, MayLend;
    var m, o :| Imperils(coal, u1, s, m, o);
    var k, j := coal[u1[m].owner], coal[u1[o].owner];
    assert Side(coal, u1, s, k) == Side(coal, u2, s, k);
    assert Side(coal, u1, s, j) == Side(coal, u2, s, j);
    TotalsAgree(u1, u2, Side(coal, u1, s, k));
    TotalsAgree(u1, u2, Side(coal, u1, s, j));
    LendingAgrees(u1, u2, Side(coal, u1, s, k), m);
    assert Imperils(coal, u2, s, m, o);
  }

  /** What a unit plans to do next does not matter. */
  lemma PerilIgnoresPlans(l: Ledger, all: set<string>, units: UnitTable, u: Unit, v: Unit, p: string, at: int)
    requires PerilAt(l, all, units[u.id := u], p, at) && v == u.(waypoints := v.waypoints)
    ensures PerilAt(l, all, units[u.id := v], p, at)
  {
    hide Perilous;
    var s := Garrison(units[u.id := u], p, at);
    assert Garrison(units[u.id := v], p, at) == s;
    PerilIsOfForces(Coals(l, all), units[u.id := u], units[u.id := v], s);
  }

  // ---------- a fight that never ends ----------

  /** In whatever order the units of s are met, the first round leaves the fight stuck on the champion
      of k, for ever. */
  ghost predicate SticksAtOnce(coal: map<string, string>, units: UnitTable, s: set<string>, k: string) {
    && Stands(coal, units, s)
    && forall p, g | Orders(p, s) && Step(PoolArena(coal, units, p), g) :: Stuck(g, k)
  }

  /** A unit x of a slot that does not lead its coalition, and a stronger one of a slot outside it. */
  lemma FollowersGetStuck(coal: map<string, string>, units: UnitTable, x: string, y: string)
    requires x in units && y in units && 0.0 < units[x].hp < units[y].hp
    requires units[x].owner in coal && units[y].owner in coal && coal[units[y].owner] == units[y].owner
    requires coal[units[x].owner] != units[x].owner && coal[units[x].owner] != units[y].owner
    ensures Perilous(coal, units, {x, y}) && SticksAtOnce(coal, units, {x, y}, coal[units[x].owner])
  {
    hide HpTotal, PoolArena, Met, Lender;
    var s, k, j := {x, y}, coal[units[x].owner], coal[units[y].owner];
    assert Side(coal, units, s, k) == {x} && Side(coal, units, s, j) == {y};
    TotalOfTwo(units, x, y);
    TotalOfTwo(units, y, x);
    assert Imperils(coal, units, s, x, y);
    forall p, g | Orders(p, s) && Step(PoolArena(coal, units, p), g)
      ensures Stuck(g, k)
    {
      TwoChampions(coal, units, p, x, y);
      FirstRoundSticks(PoolArena(coal, units, p), k, j, g);
    }
  }

  lemma TwoChampions(coal: map<string, string>, units: UnitTable, p: seq<string>, x: string, y: string)
    requires x in units && y in units && units[x].owner in coal && units[y].owner in coal
    requires coal[units[x].owner] != coal[units[y].owner] && Orders(p, {x, y})
    ensures var f := PoolArena(coal, units, p);
            && f.Keys == {coal[units[x].owner], coal[units[y].owner]}
            && f[coal[units[x].owner]].owner == units[x].owner && f[coal[units[x].owner]].hp == units[x].hp
            && f[coal[units[y].owner]].owner == units[y].owner && f[coal[units[y].owner]].hp == units[y].hp
  {
    hide HpTotal, PoolArena, Met;
    var s, k, j := {x, y}, coal[units[x].owner], coal[units[y].owner];
    assert Side(coal, units, s, k) == {x} && Side(coal, units, s, j) == {y};
    TotalOfTwo(units, x, y);
    TotalOfTwo(units, y, x);
    forall i
      ensures i in PoolArena(coal, units, p) <==> i == k || i == j
    {
      PoolShows(coal, units, p, i);
      if i != k && i != j {
        assert Side(coal, units, s, i) == {};
      }
    }
    PoolShows(coal, units, p, k);
    PoolShows(coal, units, p, j);
    assert Lender(units, Met(coal, units, p, k)) in {x};
    assert Lender(units, Met(coal, units, p, j)) in {y};
  }

  lemma FirstRoundSticks(f: Arena, k: string, j: string, g: Arena)
    requires f.Keys == {k, j} && k != j && f[k].hp < f[j].hp && f[j].owner == j
    requires f[k].owner != k && f[k].owner != j && Step(f, g)
    ensures Stuck(g, k)
  {
    var w, a :| Weakest(f, w) && StrongestBut(f, w, a) && g == Strike(f, w, a);
    assert w == k && a == j;
    assert g.Keys == {k, j};
  }

  /** Two allies of whom nobody else is an ally are led by the lesser name. */
  lemma TwoAllies(l: Ledger, all: set<string>, a: string, b: string)
    requires a in all && b in all && Less(a, b) && Allied(l, a, b)
    requires forall x | x in all && x != a && x != b :: !Allied(l, a, x) && !Allied(l, b, x)
    ensures CoalId(l, all, a) == CoalId(l, all, b) == a
  {
    var both := {a, b};
    AlliedSymmetric(l, a, b);
    LinkedToSelf(l, all, b);
    LinkedOneMore(l, all, b, b, a);
    assert Heard(l, all, both, a) && Heard(l, all, both, b);
    ClosedIsComponent(l, all, both, b);
    CoalIdIsLeast(l, all, b);
    LeastUnique(both, CoalId(l, all, b), a);
    IdOfIdIsId(l, all, b);
  }

  lemma NoAlly(l: Ledger, all: set<string>, c: string)
    requires c in all && forall x | x in all :: !Allied(l, c, x)
    ensures CoalId(l, all, c) == c
  {
    LinkedToSelf(l, all, c);
    assert Heard(l, all, {c}, c);
    ClosedIsComponent(l, all, {c}, c);
    CoalIdIsLeast(l, all, c);
  }

  /** a offers b an alliance, and b accepts. */
  ghost function AlliedPair(a: string, b: string): Ledger {
    EMPTY.After(Propose(a, b, AllianceOffer), 0).After(Accept(b, a, AllianceOffer), 0)
  }

  lemma OnlyTheyAreAllied(a: string, b: string, x: string, y: string)
    requires a != b
    ensures Allied(AlliedPair(a, b), x, y) <==> (x == a && y == b) || (x == b && y == a)
  {
    SortedPairSymmetric(a, b);
  }

  lemma TheAlliance(a: string, b: string, c: string)
    requires Less(a, b) && c != a && c != b
    ensures var coal := Coals(AlliedPair(a, b), {a, b, c});
            coal.Keys == {a, b, c} && coal[a] == coal[b] == a && coal[c] == c
  {
    hide AlliedPair, Allied, CoalId, Less;
    var l, all := AlliedPair(a, b), {a, b, c};
    Distinguished(a, b);
    forall x, y
      ensures Allied(l, x, y) <==> (x == a && y == b) || (x == b && y == a)
    {
      OnlyTheyAreAllied(a, b, x, y);
    }
    TwoAllies(l, all, a, b);
    NoAlly(l, all, c);
  }

  lemma Distinguished(a: string, b: string)
    requires Less(a, b)
    ensures a != b
  {
    Asymmetric(a, b);
  }

  /** Where a and b are allied and a leads them, one unit of b with 10 hit points and one of c with 20
      are at rest in p: the fight over p never ends. */
  lemma AnAllianceHangs(a: string, b: string, c: string, x: Unit, y: Unit, p: string, at: int)
    requires Less(a, b) && c != a && c != b
    requires x.id != y.id && x.owner == b && y.owner == c && x.hp == 10.0 && y.hp == 20.0
    requires x.origin == x.dest == y.origin == y.dest == p && !x.IsMoving(at) && !y.IsMoving(at)
    ensures var coal, units := Coals(AlliedPair(a, b), {a, b, c}), map[x.id := x, y.id := y];
            var s := Garrison(units, p, at);
            s == {x.id, y.id} && Perilous(coal, units, s) && SticksAtOnce(coal, units, s, a)
  {
    hide AlliedPair, Coals, Less, Perilous, SticksAtOnce;
    TheAlliance(a, b, c);
    Distinguished(a, b);
    FollowersGetStuck(Coals(AlliedPair(a, b), {a, b, c}), map[x.id := x, y.id := y], x.id, y.id);
  }
}
