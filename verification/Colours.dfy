/** Whose colours a pooled champion shows: the units of a side are met one after the other, in an
    order nobody controls, and a unit that brings more than half of what has been pooled so far
    lends the champion its owner and its type. */
module Colours {
  import opened StringOrder
  import opened Router
  import opened Units
  import opened MatchState

  /** An order in which the units of a side can be met. */
  ghost predicate Orders(p: seq<string>, side: set<string>) {
    p != [] && Simple(p) && Elements(p) == side
  }

  lemma OrdersGrow(p: seq<string>, x: string)
    requires p != [] && Simple(p) && x !in Elements(p)
    ensures Orders(p + [x], Elements(p) + {x}) && (p + [x])[..|p|] == p
  {
    assert x !in p;
  }

  /** All but the last unit met. */
  lemma BeforeTheLast(p: seq<string>)
    requires p != [] && Simple(p)
    ensures var n := |p| - 1; Simple(p[..n]) && Elements(p[..n]) == Elements(p) - {p[n]}
  {
    var n := |p| - 1;
    assert p == p[..n] + [p[n]];
    assert p[n] !in p[..n];
  }

  /** A set can be met in some order that begins with x. */
  lemma {:induction false} SomeOrder(side: set<string>, x: string) returns (p: seq<string>)
    requires x in side
    ensures Orders(p, side) && p[0] == x
    decreases side
  {
    if side - {x} == {} {
      assert side == {x};
      p := [x];
    } else {
      var y :| y in side - {x};
      p := SomeOrder(side - {y}, x);
      OrdersGrow(p, y);
      p := p + [y];
    }
  }

  ghost predicate Living(units: UnitTable, side: set<string>) {
    side <= units.Keys && forall id | id in side :: units[id].hp > 0.0
  }

  /** The unit whose colours the champion shows. */
  ghost function Lender(units: UnitTable, p: seq<string>): (x: string)
    requires p != [] && Elements(p) <= units.Keys
    ensures x in p
  {
    var n := |p| - 1;
    if n == 0 || units[p[n]].hp > HpTotal(units, Elements(p)) / 2.0 then p[n] else Lender(units, p[..n])
  }

  /** x lends its colours in some order of meeting. */
  ghost predicate CanLend(units: UnitTable, side: set<string>, x: string)
    requires side <= units.Keys
  {
    exists p :: Orders(p, side) && Lender(units, p) == x
  }

  /** The units of a side with fewer than h hit points. */
  ghost function Weaker(units: UnitTable, side: set<string>, h: real): set<string>
    requires side <= units.Keys
  {
    set id | id in side && units[id].hp < h
  }

  /** y has more hit points than all weaker units of its side together. */
  ghost predicate Outweighs(units: UnitTable, side: set<string>, y: string)
    requires side <= units.Keys
  {
    y in side && units[y].hp > HpTotal(units, Weaker(units, side, units[y].hp))
  }

  /** No stronger unit of the side outweighs the weaker ones. */
  ghost predicate MayLend(units: UnitTable, side: set<string>, x: string)
    requires side <= units.Keys
  {
    x in side && forall y | y in side && units[x].hp < units[y].hp :: !Outweighs(units, side, y)
  }

  // ---------- sums ----------

  lemma {:induction false} PartOfTotal(units: UnitTable, part: set<string>, side: set<string>)
    requires Living(units, side) && part <= side
    ensures 0.0 <= HpTotal(units, part) <= HpTotal(units, side)
    decreases side
  {
    if side == {} {
      assert part == {};
    } else {
      var x :| x in side;
      HpTotalWithout(units, side, x);
      PartOfTotal(units, part - {x}, side - {x});
      if x in part {
        HpTotalWithout(units, part, x);
      } else {
        assert part - {x} == part;
      }
    }
  }

  lemma OneOfTotal(units: UnitTable, x: string, side: set<string>)
    requires Living(units, side) && x in side
    ensures units[x].hp <= HpTotal(units, side)
  {
    HpTotalWithout(units, side, x);
    PartOfTotal(units, {}, side - {x});
  }

  // ---------- when a unit can lend ----------

  lemma MayLendMember(units: UnitTable, side: set<string>, x: string)
    requires side <= units.Keys && MayLend(units, side, x)
    ensures x in side
  {
  }

  /** Once all weaker units together are weaker than h, a unit of at least h hit points lends. */
  lemma {:induction false} StrongOnesLend(units: UnitTable, p: seq<string>, x: string, h: real)
    requires p != [] && Simple(p) && Living(units, Elements(p))
    requires x in p && units[x].hp >= h > HpTotal(units, Weaker(units, Elements(p), h))
    ensures units[Lender(units, p)].hp >= h
    decreases |p|
  {
    var n, side := |p| - 1, Elements(p);
    var last, rest := p[n], side - {p[n]};
    BeforeTheLast(p);
    HpTotalWithout(units, side, last);
    if n == 0 {
      assert x == last;
    } else if units[last].hp > HpTotal(units, side) / 2.0 {
      if units[last].hp < h {
        OneOfTotal(units, x, rest);
      }
    } else {
      if x == last {
        PartOfTotal(units, Weaker(units, side, h), side);
        var y := AnotherStrongOne(units, side, last, h);
        LastIsWeakerStill(units, side, last, h);
        StrongOnesLend(units, p[..n], y, h);
      } else {
        LastIsWeakerStill(units, side, last, h);
        StrongOnesLend(units, p[..n], x, h);
      }
    }
  }

  lemma LastIsWeakerStill(units: UnitTable, side: set<string>, last: string, h: real)
    requires Living(units, side) && h > HpTotal(units, Weaker(units, side, h))
    ensures h > HpTotal(units, Weaker(units, side - {last}, h))
  {
    PartOfTotal(units, Weaker(units, side - {last}, h), Weaker(units, side, h));
  }

  /** A strong unit that is at most half of the total is not the only strong one. */
  lemma AnotherStrongOne(units: UnitTable, side: set<string>, x: string, h: real) returns (y: string)
    requires Living(units, side) && x in side && units[x].hp >= h > HpTotal(units, Weaker(units, side, h))
    requires units[x].hp <= HpTotal(units, side) / 2.0
    ensures y in side - {x} && units[y].hp >= h
  {
    HpTotalWithout(units, side, x);
    if side - {x} <= Weaker(units, side, h) {
      PartOfTotal(units, side - {x}, Weaker(units, side, h));
      assert false;
    }
    y :| y in side - {x} && y !in Weaker(units, side, h);
  }

  /** The strongest unit but x. */
  lemma {:induction false} StrongestBesides(units: UnitTable, side: set<string>, x: string) returns (y: string)
    requires side <= units.Keys && side - {x} != {}
    ensures y in side && y != x && forall z | z in side && z != x :: units[z].hp <= units[y].hp
    decreases side
  {
    y :| y in side - {x};
    var rest := side - {y};
    if rest - {x} == {} {
      assert side - {x} == {y};
      assert forall z | z in side && z != x :: z in side - {x};
    } else {
      var z := StrongestBesides(units, rest, x);
      assert forall o | o in side :: o in rest || o == y;
      y := if units[z].hp < units[y].hp then y else z;
    }
  }

  /** Without the strongest of the others, x still may lend. */
  lemma DroppingTheStrongest(units: UnitTable, side: set<string>, x: string, y: string)
    requires Living(units, side) && MayLend(units, side, x) && y in side && y != x
    requires forall z | z in side && z != x :: units[z].hp <= units[y].hp
    ensures MayLend(units, side - {y}, x)
  {
    hide HpTotal;
    forall z | z in side - {y} && units[x].hp < units[z].hp
      ensures !Outweighs(units, side - {y}, z)
    {
      assert Weaker(units, side - {y}, units[z].hp) == Weaker(units, side, units[z].hp);
      assert !Outweighs(units, side, z);
    }
  }

  /** And met last, it does not lend. */
  lemma TheStrongestLast(units: UnitTable, side: set<string>, x: string, y: string)
    requires Living(units, side) && MayLend(units, side, x) && y in side && y != x
    ensures units[y].hp <= HpTotal(units, side) / 2.0
  {
    var rest := side - {y};
    HpTotalWithout(units, side, y);
    if units[x].hp < units[y].hp {
      PartOfTotal(units, Weaker(units, side, units[y].hp), rest);
      assert !Outweighs(units, side, y);
    } else {
      OneOfTotal(units, x, rest);
    }
  }

  /** A unit that may lend does, if the others are met after it, the strongest of them last. */
  lemma {:induction false} WeakOnesFirst(units: UnitTable, side: set<string>, x: string) returns (p: seq<string>)
    requires Living(units, side) && MayLend(units, side, x)
    ensures Orders(p, side) && Lender(units, p) == x
    decreases side
  {
    hide HpTotal, Simple, MayLend;
    MayLendMember(units, side, x);
    if side - {x} == {} {
      assert side == {x};
      LoneLender(units, x);
      p := [x];
    } else {
      var y := StrongestBesides(units, side, x);
      DroppingTheStrongest(units, side, x, y);
      TheStrongestLast(units, side, x, y);
      p := WeakOnesFirst(units, side - {y}, x);
      OrdersGrow(p, y);
      p := p + [y];
    }
  }

  /** A unit can lend the champion its colours if and only if no stronger unit of its side
      outweighs the weaker ones. */
  lemma LendersAreNotOutweighed(units: UnitTable, side: set<string>, x: string)
    requires Living(units, side)
    ensures CanLend(units, side, x) <==> MayLend(units, side, x)
  {
    if CanLend(units, side, x) {
      var p :| Orders(p, side) && Lender(units, p) == x;
      forall y | y in side && units[x].hp < units[y].hp
        ensures !Outweighs(units, side, y)
      {
        if Outweighs(units, side, y) {
          StrongOnesLend(units, p, y, units[y].hp);
        }
      }
    }
    if MayLend(units, side, x) {
      var p := WeakOnesFirst(units, side, x);
    }
  }

  /** One more unit is met. */
  lemma LenderOfOneMore(units: UnitTable, side: set<string>, m: string, x: string)
    requires side + {x} <= units.Keys && x !in side && CanLend(units, side, m)
    ensures CanLend(units, side + {x}, if units[x].hp > HpTotal(units, side + {x}) / 2.0 then x else m)
  {
    var p :| Orders(p, side) && Lender(units, p) == m;
    OrdersGrow(p, x);
    assert Orders(p + [x], side + {x});
  }

  lemma LoneLender(units: UnitTable, x: string)
    requires x in units
    ensures Orders([x], {x}) && Lender(units, [x]) == x && CanLend(units, {x}, x)
  {
    assert Lender(units, [x]) == x;
  }

  // ---------- which slot shows ----------

  /** The slot is sure to show: some unit outweighs all weaker ones, and it and all units at least
      as strong are the slot's. */
  ghost predicate SureToShow(units: UnitTable, side: set<string>, slot: string)
    requires side <= units.Keys
  {
    exists y :: Outweighs(units, side, y)
      && forall x | x in side && units[y].hp <= units[x].hp :: units[x].owner == slot
  }

  /** From a unit that outweighs the weaker ones to a strongest such. */
  lemma {:induction false} GreatestOutweigher(units: UnitTable, side: set<string>, x: string) returns (y: string)
    requires side <= units.Keys && Outweighs(units, side, x)
    ensures Outweighs(units, side, y)
    ensures forall z | z in side && units[y].hp < units[z].hp :: !Outweighs(units, side, z)
    decreases Stronger(units, side, units[x].hp)
  {
    y := x;
    if z :| z in side && units[x].hp < units[z].hp && Outweighs(units, side, z) {
      assert Stronger(units, side, units[z].hp) <= Stronger(units, side, units[x].hp);
      assert z in Stronger(units, side, units[x].hp) - Stronger(units, side, units[z].hp);
      y := GreatestOutweigher(units, side, z);
    }
  }

  ghost function Stronger(units: UnitTable, side: set<string>, h: real): set<string>
    requires side <= units.Keys
  {
    set id | id in side && h < units[id].hp
  }

  lemma WeakestOutweighs(units: UnitTable, side: set<string>) returns (y: string)
    requires Living(units, side) && side != {}
    ensures Outweighs(units, side, y)
  {
    y := WeakestOf(units, side);
    assert Weaker(units, side, units[y].hp) == {};
  }

  lemma {:induction false} WeakestOf(units: UnitTable, side: set<string>) returns (y: string)
    requires side <= units.Keys && side != {}
    ensures y in side && forall z | z in side :: units[y].hp <= units[z].hp
    decreases side
  {
    y :| y in side;
    if side - {y} == {} {
      assert side == {y};
    } else {
      var z := WeakestOf(units, side - {y});
      y := if units[z].hp < units[y].hp then z else y;
    }
  }

  /** In every order of meeting the champion shows the slot's colours, if and only if some unit
      outweighs all weaker ones, and it and all units at least as strong are the slot's. */
  lemma OneSlotShows(units: UnitTable, side: set<string>, slot: string)
    requires Living(units, side) && side != {}
    ensures (forall p | Orders(p, side) :: units[Lender(units, p)].owner == slot) <==> SureToShow(units, side, slot)
  {
    if SureToShow(units, side, slot) {
      var y :| Outweighs(units, side, y) && forall x | x in side && units[y].hp <= units[x].hp ::
          units[x].owner == slot;
      forall p | Orders(p, side)
        ensures units[Lender(units, p)].owner == slot
      {
        StrongOnesLend(units, p, y, units[y].hp);
      }
    }
    if forall p | Orders(p, side) :: units[Lender(units, p)].owner == slot {
      var w := WeakestOutweighs(units, side);
      var y := GreatestOutweigher(units, side, w);
      forall x | x in side && units[y].hp <= units[x].hp
        ensures units[x].owner == slot
      {
        assert MayLend(units, side, x);
        var p := WeakOnesFirst(units, side, x);
      }
    }
  }

  /** A unit with at most half of all hit points does not show when it is met last. */
  lemma MinorityLast(units: UnitTable, side: set<string>, m: string) returns (p: seq<string>)
    requires Living(units, side) && m in side && units[m].hp <= HpTotal(units, side) / 2.0
    ensures Orders(p, side) && Lender(units, p) != m
  {
    hide HpTotal;
    var rest := side - {m};
    HpTotalWithout(units, side, m);
    NoTotal(units);
    if rest == {} {
      assert false;
    }
    var x :| x in rest;
    p := SomeOrder(rest, x);
    OrdersGrow(p, m);
    p := p + [m];
  }

  lemma NoTotal(units: UnitTable)
    ensures HpTotal(units, {}) == 0.0
  {
  }

  /** A unit shows in every order of meeting if and only if it has more than half of the hit points
      of its side; having the most is not enough. */
  lemma ColoursNeedAMajority(units: UnitTable, side: set<string>, m: string)
    requires Living(units, side) && m in side
    ensures (forall p | Orders(p, side) :: Lender(units, p) == m) <==> units[m].hp > HpTotal(units, side) / 2.0
  {
    HpTotalWithout(units, side, m);
    if units[m].hp > HpTotal(units, side) / 2.0 {
      PartOfTotal(units, Weaker(units, side, units[m].hp), side - {m});
      forall p | Orders(p, side)
        ensures Lender(units, p) == m
      {
        StrongOnesLend(units, p, m, units[m].hp);
        if Lender(units, p) != m {
          OneOfTotal(units, Lender(units, p), side - {m});
        }
      }
    } else {
      var p := MinorityLast(units, side, m);
    }
  }

  /** The champion after meeting units in some order. */
  ghost function Merged(units: UnitTable, p: seq<string>): Unit
    requires p != [] && Elements(p) <= units.Keys
  {
    var n := |p| - 1;
    if n == 0 then units[p[0]] else Merge(Merged(units, p[..n]), units[p[n]])
  }

  /** A champion takes in u: its hit points, and its colours if they are more than half of the sum. */
  function Merge(champion: Unit, u: Unit): Unit {
    var e := champion.(hp := champion.hp + u.hp);
    if u.hp > e.hp / 2.0 then e.(owner := u.owner, kind := u.kind) else e
  }

  /** It is the first unit met, with all the hit points, under the colours of the lender. */
  lemma {:induction false} MergedIsLent(units: UnitTable, p: seq<string>)
    requires p != [] && Simple(p) && Elements(p) <= units.Keys
    ensures var l := units[Lender(units, p)];
            Merged(units, p) == units[p[0]].(hp := HpTotal(units, Elements(p)), owner := l.owner, kind := l.kind)
    decreases |p|
  {
    var n := |p| - 1;
    HpTotalWithout(units, Elements(p), p[n]);
    BeforeTheLast(p);
    if n == 0 {
      assert Elements(p) - {p[0]} == {};
    } else {
      MergedIsLent(units, p[..n]);
    }
  }

  /** Stacks of 8, 9 and 10 of three slots: the 9 shows in some order, the 10 in another, and the 8
      in none. */
  lemma StrongestNeedNotShow(units: UnitTable, a: string, b: string, c: string)
    requires a in units && b in units && c in units
    requires units[a].hp == 8.0 && units[b].hp == 9.0 && units[c].hp == 10.0
    requires units[a].owner != units[b].owner && units[b].owner != units[c].owner && units[a].owner != units[c].owner
    ensures forall x :: CanLend(units, {a, b, c}, x) <==> x == b || x == c
    ensures forall slot :: !SureToShow(units, {a, b, c}, slot)
  {
    hide HpTotal, CanLend;
    var side := {a, b, c};
    assert Weaker(units, side, 9.0) == {a} && Weaker(units, side, 10.0) == {a, b};
    TotalOfTwo(units, a, b);
    assert !Outweighs(units, side, c) && Outweighs(units, side, b);
    assert MayLend(units, side, b) && MayLend(units, side, c) && !MayLend(units, side, a);
    forall x
      ensures CanLend(units, side, x) <==> x == b || x == c
    {
      LendersAreNotOutweighed(units, side, x);
    }
  }

  lemma TotalOfTwo(units: UnitTable, a: string, b: string)
    requires a in units && b in units && a != b
    ensures HpTotal(units, {a}) == units[a].hp && HpTotal(units, {a, b}) == units[a].hp + units[b].hp
  {
    HpTotalWithout(units, {a}, a);
    assert {a} - {a} == {};
    HpTotalWithout(units, {a, b}, b);
    assert {a, b} - {b} == {a};
  }

  /** Two stacks of 10 of one slot and a stack of 1 of another: nobody has a majority, and yet the
      one slot is sure to show. */
  lemma NoMajorityIsNeeded(units: UnitTable, a: string, b: string, c: string)
    requires a in units && b in units && c in units && a != b
    requires units[a].hp == 10.0 && units[b].hp == 10.0 && units[c].hp == 1.0
    requires units[a].owner == units[b].owner != units[c].owner
    ensures SureToShow(units, {a, b, c}, units[a].owner)
    ensures forall x | x in {a, b, c} :: units[x].hp <= HpTotal(units, {a, b, c}) / 2.0
  {
    hide HpTotal;
    var side := {a, b, c};
    TotalOfTwo(units, c, a);
    HpTotalWithout(units, side, b);
    assert side - {b} == {c, a} && Weaker(units, side, 10.0) == {c};
    assert Outweighs(units, side, a);
  }
}
