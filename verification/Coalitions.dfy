/** Coalitions: the connected components of the alliance graph, computed twice in the
    program, by the engine's registry and by the gateway's chat. */
module Coalitions {
  import opened StringOrder
  import opened Diplomacy

  ghost predicate Allied(l: Ledger, a: string, b: string) {
    l.Stance(a, b) == Alliance
  }

  lemma AlliedSymmetric(l: Ledger, a: string, b: string)
    ensures Allied(l, a, b) <==> Allied(l, b, a)
  {
    SortedPairSymmetric(a, b);
  }

  /** A chain of alliances through known slots; only its first slot may be unknown. */
  ghost predicate Chain(l: Ledger, all: set<string>, c: seq<string>) {
    && |c| > 0
    && (forall i | 1 <= i < |c| :: c[i] in all)
    && forall i | 1 <= i < |c| :: Allied(l, c[i - 1], c[i])
  }

  ghost predicate Linked(l: Ledger, all: set<string>, a: string, b: string) {
    exists c :: Chain(l, all, c) && c[0] == a && c[|c| - 1] == b
  }

  /** The coalition of a slot: everyone it is linked to. */
  ghost function Component(l: Ledger, all: set<string>, slot: string): (r: set<string>)
    ensures forall x :: x in r <==> x in all + {slot} && Linked(l, all, slot, x)
  {
    set x | x in all + {slot} && Linked(l, all, slot, x)
  }

  lemma LinkedToSelf(l: Ledger, all: set<string>, a: string)
    ensures Linked(l, all, a, a)
  {
    assert Chain(l, all, [a]);
  }

  lemma LinkedOneMore(l: Ledger, all: set<string>, a: string, b: string, x: string)
    requires Linked(l, all, a, b) && Allied(l, b, x) && x in all
    ensures Linked(l, all, a, x)
  {
    var c :| Chain(l, all, c) && c[0] == a && c[|c| - 1] == b;
    var d := c + [x];
    assert Chain(l, all, d) && d[0] == a && d[|d| - 1] == x;
  }

  lemma {:induction false} ChainFromLink(l: Ledger, all: set<string>, a: string, c: seq<string>)
    requires Chain(l, all, c) && Linked(l, all, a, c[0])
    ensures Linked(l, all, a, c[|c| - 1])
    decreases |c|
  {
    if |c| == 1 {
    } else {
      assert Allied(l, c[1 - 1], c[1]);
      LinkedOneMore(l, all, a, c[0], c[1]);
      var d := c[1..];
      forall i | 1 <= i < |d|
        ensures Allied(l, d[i - 1], d[i]) && d[i] in all
      {
        assert Allied(l, c[i + 1 - 1], c[i + 1]);
      }
      ChainFromLink(l, all, a, d);
    }
  }

  lemma LinkedTransitive(l: Ledger, all: set<string>, a: string, b: string, x: string)
    requires Linked(l, all, a, b) && Linked(l, all, b, x)
    ensures Linked(l, all, a, x)
  {
    var c :| Chain(l, all, c) && c[0] == b && c[|c| - 1] == x;
    ChainFromLink(l, all, a, c);
  }

  lemma {:induction false} ChainBackwards(l: Ledger, all: set<string>, c: seq<string>)
    requires Chain(l, all, c) && c[0] in all
    ensures Linked(l, all, c[|c| - 1], c[0])
    decreases |c|
  {
    if |c| == 1 {
      LinkedToSelf(l, all, c[0]);
    } else {
      var n := |c| - 1;
      var d := c[..n];
      assert forall i | 1 <= i < |d| :: Allied(l, c[i - 1], c[i]) ==> Allied(l, d[i - 1], d[i]);
      ChainBackwards(l, all, d);
      AlliedSymmetric(l, c[n - 1], c[n]);
      LinkedToSelf(l, all, c[n]);
      LinkedOneMore(l, all, c[n], c[n], c[n - 1]);
      LinkedTransitive(l, all, c[n], c[n - 1], c[0]);
    }
  }

  lemma LinkedSymmetric(l: Ledger, all: set<string>, a: string, b: string)
    requires a in all
    ensures Linked(l, all, a, b) ==> Linked(l, all, b, a)
  {
    if Linked(l, all, a, b) {
      var c :| Chain(l, all, c) && c[0] == a && c[|c| - 1] == b;
      ChainBackwards(l, all, c);
    }
  }

  /** Linked is an equivalence on the known slots, and its classes are the coalitions. */
  lemma CoalitionsPartition(l: Ledger, all: set<string>, a: string, b: string)
    requires a in all && b in all
    ensures a in Component(l, all, a)
    ensures Linked(l, all, a, b) <==> Linked(l, all, b, a)
    ensures Linked(l, all, a, b) <==> Component(l, all, a) == Component(l, all, b)
    ensures !Linked(l, all, a, b) <==> Component(l, all, a) !! Component(l, all, b)
  {
    LinkedToSelf(l, all, a);
    LinkedToSelf(l, all, b);
    LinkedSymmetric(l, all, a, b);
    LinkedSymmetric(l, all, b, a);
    forall x | x in all
      ensures Linked(l, all, a, b) ==> (Linked(l, all, a, x) <==> Linked(l, all, b, x))
      ensures Linked(l, all, a, x) && Linked(l, all, b, x) ==> Linked(l, all, a, b)
    {
      if Linked(l, all, a, b) && Linked(l, all, a, x) { LinkedTransitive(l, all, b, a, x); }
      if Linked(l, all, a, b) && Linked(l, all, b, x) { LinkedTransitive(l, all, a, b, x); }
      if Linked(l, all, a, x) && Linked(l, all, b, x) {
        LinkedSymmetric(l, all, b, x);
        LinkedTransitive(l, all, a, x, b);
      }
    }
  }

  /** Nothing outside a set closed under alliance is linked to its members. */
  lemma {:induction false} ClosedContainsChain(l: Ledger, all: set<string>, s: set<string>, c: seq<string>)
    requires Swept(l, all, s, []) && Chain(l, all, c) && c[0] in s
    ensures c[|c| - 1] in s
    decreases |c|
  {
    if |c| == 1 {
    } else {
      var n := |c| - 1;
      var d := c[..n];
      assert forall i | 1 <= i < |d| :: Allied(l, c[i - 1], c[i]) ==> Allied(l, d[i - 1], d[i]);
      ClosedContainsChain(l, all, s, d);
      assert Allied(l, c[n - 1], c[n]) && Heard(l, all, s, c[n - 1]);
    }
  }

  /** Every known ally of v is in s. */
  ghost predicate Heard(l: Ledger, all: set<string>, s: set<string>, v: string) {
    forall x | x in all && Allied(l, v, x) :: x in s
  }

  /** Every member of s that is not waiting on the stack has been heard. */
  ghost predicate Swept(l: Ledger, all: set<string>, s: set<string>, stack: seq<string>) {
    forall v {:trigger Heard(l, all, s, v)} | v in s && v !in stack :: Heard(l, all, s, v)
  }

  /** Hearing the slot on top of the stack, and stacking what that brings in. */
  lemma HearTop(l: Ledger, all: set<string>, s: set<string>, stack: seq<string>, s': set<string>, found: seq<string>)
    requires |stack| > 0 && Swept(l, all, s, stack)
    requires s' == s + Elements(found) && Heard(l, all, s', stack[|stack| - 1])
    ensures Swept(l, all, s', stack[..|stack| - 1] + found)
  {
    var rest, cur := stack[..|stack| - 1], stack[|stack| - 1];
    assert stack == rest + [cur];
    forall v | v in s' && v !in rest + found
      ensures Heard(l, all, s', v)
    {
      assert v !in found && v in s;
      if v != cur {
        assert Heard(l, all, s, v);
      }
    }
  }

  lemma ClosedIsComponent(l: Ledger, all: set<string>, s: set<string>, slot: string)
    requires slot in s && s <= all + {slot}
    requires forall x | x in s :: Linked(l, all, slot, x)
    requires Swept(l, all, s, [])
    ensures s == Component(l, all, slot)
  {
    forall x | Linked(l, all, slot, x)
      ensures x in s
    {
      var c :| Chain(l, all, c) && c[0] == slot && c[|c| - 1] == x;
      ClosedContainsChain(l, all, s, c);
    }
  }

  /** The alphabetically least member. */
  ghost predicate LeastOf(s: set<string>, x: string) {
    x in s && forall y | y in s :: y == x || Less(x, y)
  }

  lemma LeastUnique(s: set<string>, x: string, y: string)
    requires LeastOf(s, x) && LeastOf(s, y)
    ensures x == y
  {
    if x != y {
      Asymmetric(x, y);
    }
  }

  lemma {:induction false} LeastExists(s: set<string>)
    requires s != {}
    ensures exists x :: LeastOf(s, x)
    decreases s
  {
    var z :| z in s;
    if s == {z} {
      assert LeastOf(s, z);
    } else {
      LeastExists(s - {z});
      var x :| LeastOf(s - {z}, x);
      Total(x, z);
      if Less(z, x) {
        forall y | y in s
          ensures y == z || Less(z, y)
        {
          if y != z && y != x { Transitive(z, x, y); }
        }
        assert LeastOf(s, z);
      } else {
        assert LeastOf(s, x);
      }
    }
  }

  /** The id of a slot's coalition: its alphabetically least member. */
  ghost function CoalId(l: Ledger, all: set<string>, slot: string): string {
    LinkedToSelf(l, all, slot);
    Least(Component(l, all, slot))
  }

  ghost function Least(s: set<string>): string
    requires s != {}
  {
    LeastExists(s);
    var x :| LeastOf(s, x);
    x
  }

  lemma CoalIdIsLeast(l: Ledger, all: set<string>, slot: string)
    ensures LeastOf(Component(l, all, slot), CoalId(l, all, slot))
  {
    LinkedToSelf(l, all, slot);
    LeastExists(Component(l, all, slot));
  }

  /** Registry.Coalition: a worklist over the known slots. */
  method Coalition(r: Registry, slot: string, allSlots: seq<string>) returns (visited: set<string>)
    ensures visited == Component(r.Value(), Elements(allSlots), slot)
  {
    ghost var l, all := r.Value(), Elements(allSlots);
    visited := {slot};
    LinkedToSelf(l, all, slot);
    var stack := [slot];
    while |stack| > 0
      invariant slot in visited && visited <= all + {slot}
      invariant forall x | x in visited :: Linked(l, all, slot, x)
      invariant forall x | x in stack :: x in visited
      invariant Swept(l, all, visited, stack)
      decreases all + {slot} - visited, |stack|
    {
      var current := stack[|stack| - 1];
      ghost var before, top := visited, stack;
      stack := stack[..|stack| - 1];
      ghost var found: seq<string> := [];
      for i := 0 to |allSlots|
        invariant visited == before + Elements(found) && stack == top[..|top| - 1] + found
        invariant Elements(found) <= all && (visited == before ==> found == [])
        invariant forall x | x in visited :: Linked(l, all, slot, x)
        invariant forall k | 0 <= k < i && Allied(l, current, allSlots[k]) :: allSlots[k] in visited
      {
        var other := allSlots[i];
        if other in visited {
          continue;
        }
        var s := r.GetStance(current, other);
        if s == Alliance {
          LinkedOneMore(l, all, slot, current, other);
          AppendElement(found, other);
          visited := visited + {other};
          stack := stack + [other];
          found := found + [other];
        }
      }
      HearTop(l, all, before, top, visited, found);
    }
    assert stack == [];
    ClosedIsComponent(l, all, visited, slot);
  }

  lemma AppendElement(s: seq<string>, x: string)
    ensures Elements(s + [x]) == Elements(s) + {x}
  {
  }

  /** Registry.CoalitionID: the least member of the coalition. */
  method CoalitionID(r: Registry, slot: string, allSlots: seq<string>) returns (leader: string)
    ensures leader == CoalId(r.Value(), Elements(allSlots), slot)
  {
    var members := Coalition(r, slot, allSlots);
    leader := slot;
    LinkedToSelf(r.Value(), Elements(allSlots), slot);
    var rest := members;
    while rest != {}
      invariant rest <= members && leader in members
      invariant forall y | y in members - rest :: y == leader || Less(leader, y)
      invariant leader == slot || Less(leader, slot)
      decreases rest
    {
      var s :| s in rest;
      rest := rest - {s};
      Total(s, leader);
      if Less(s, leader) {
        forall y | y in members - rest
          ensures y == s || Less(s, y)
        {
          if y != s && y != leader { Transitive(s, leader, y); }
        }
        if leader != slot { Transitive(s, leader, slot); }
        leader := s;
      }
    }
    CoalIdIsLeast(r.Value(), Elements(allSlots), slot);
    LeastUnique(members, leader, CoalId(r.Value(), Elements(allSlots), slot));
  }

  /** Two slots answer to the same coalition id exactly when a chain of alliances joins them. */
  lemma SameIdIffLinked(l: Ledger, all: set<string>, a: string, b: string)
    requires a in all && b in all
    ensures CoalId(l, all, a) == CoalId(l, all, b) <==> Linked(l, all, a, b)
  {
    CoalitionsPartition(l, all, a, b);
    CoalIdIsLeast(l, all, a);
    CoalIdIsLeast(l, all, b);
    if Linked(l, all, a, b) {
      LeastUnique(Component(l, all, a), CoalId(l, all, a), CoalId(l, all, b));
    }
  }

  /** The id of a coalition is one of its members, so asking again changes nothing. */
  lemma IdOfIdIsId(l: Ledger, all: set<string>, slot: string)
    requires slot in all
    ensures CoalId(l, all, CoalId(l, all, slot)) == CoalId(l, all, slot)
  {
    CoalIdIsLeast(l, all, slot);
    SameIdIffLinked(l, all, slot, CoalId(l, all, slot));
  }

  /** A treaty as the gateway receives it. */
  datatype WireTreaty = WireTreaty(slotA: string, slotB: string, stance: string)

  function StanceName(s: Stance): string {
    match s
    case War => "war"
    case Peace => "peace"
    case Alliance => "alliance"
  }

  /** The wire list carries exactly the ledger's treaties, all between known slots. */
  ghost predicate Transcribes(l: Ledger, all: set<string>, ts: seq<WireTreaty>) {
    && (forall i | 0 <= i < |ts| ::
          var p := Pair(ts[i].slotA, ts[i].slotB);
          p in l.treaties && ts[i].stance == StanceName(l.treaties[p].stance))
    && (forall p | p in l.treaties ::
          p.a in all && p.b in all
          && exists i :: 0 <= i < |ts| && ts[i].slotA == p.a && ts[i].slotB == p.b)
  }

  /** The other end of a treaty that cur is party to; "" otherwise. */
  function OtherEnd(t: WireTreaty, cur: string): string {
    if cur == t.slotA then t.slotB else if cur == t.slotB then t.slotA else ""
  }

  lemma WireEdgeIsAlliance(l: Ledger, all: set<string>, ts: seq<WireTreaty>, i: int, cur: string)
    requires l.WellFormed() && Transcribes(l, all, ts) && 0 <= i < |ts| && ts[i].stance == "alliance"
    requires OtherEnd(ts[i], cur) != ""
    ensures OtherEnd(ts[i], cur) in all && Allied(l, cur, OtherEnd(ts[i], cur))
  {
    var p := Pair(ts[i].slotA, ts[i].slotB);
    assert p in l.treaties;
    Asymmetric(p.a, p.b);
  }

  lemma AllianceHasWireEdge(l: Ledger, all: set<string>, ts: seq<WireTreaty>, cur: string, x: string) returns (i: int)
    requires l.WellFormed() && Transcribes(l, all, ts) && Allied(l, cur, x)
    ensures 0 <= i < |ts| && ts[i].stance == "alliance" && OtherEnd(ts[i], cur) == x
  {
    var p := SortedPair(cur, x);
    assert p in l.treaties;
    i :| 0 <= i < |ts| && ts[i].slotA == p.a && ts[i].slotB == p.b;
    assert Pair(ts[i].slotA, ts[i].slotB) == p;
  }

  /** If the treaty is an alliance of cur, its other end has been found. */
  ghost predicate Covered(t: WireTreaty, cur: string, found: set<string>) {
    t.stance == "alliance" && OtherEnd(t, cur) != "" ==> OtherEnd(t, cur) in found
  }

  lemma WireScanFindsAll(l: Ledger, all: set<string>, ts: seq<WireTreaty>, cur: string, found: set<string>)
    requires l.WellFormed() && "" !in all && Transcribes(l, all, ts)
    requires forall k | 0 <= k < |ts| :: Covered(ts[k], cur, found)
    ensures Heard(l, all, found, cur)
  {
    forall x | x in all && Allied(l, cur, x)
      ensures x in found
    {
      var k := AllianceHasWireEdge(l, all, ts, cur, x);
      assert Covered(ts[k], cur, found);
    }
  }

  /** coalitionLeaderFor: the gateway's own search, over the list of treaties. */
  method CoalitionLeaderFor(slot: string, players: seq<string>, treaties: seq<WireTreaty>, ghost l: Ledger)
    returns (leader: string)
    requires l.WellFormed() && "" !in players && Transcribes(l, Elements(players), treaties)
    ensures leader == CoalId(l, Elements(players), slot)
  {
    var allies := AlliesOverWire(slot, treaties, l, Elements(players));
    LinkedToSelf(l, Elements(players), slot);
    leader := slot;
    for i := 0 to |players|
      invariant leader in allies && (leader == slot || Less(leader, slot))
      invariant forall k | 0 <= k < i && players[k] in allies :: players[k] == leader || Less(leader, players[k])
    {
      var p := players[i];
      Total(p, leader);
      if p in allies && Less(p, leader) {
        forall k | 0 <= k < i && players[k] in allies
          ensures players[k] == p || Less(p, players[k])
        {
          if players[k] != leader { Transitive(p, leader, players[k]); }
        }
        if leader != slot { Transitive(p, leader, slot); }
        leader := p;
      }
    }
    CoalIdIsLeast(l, Elements(players), slot);
    LeastUnique(allies, leader, CoalId(l, Elements(players), slot));
  }

  /** One pass over the treaty list on behalf of cur, finding the allies not yet known. */
  method ScanTreaties(slot: string, cur: string, treaties: seq<WireTreaty>, known: set<string>,
                      ghost l: Ledger, ghost all: set<string>)
    returns (allies: set<string>, found: seq<string>)
    requires l.WellFormed() && Transcribes(l, all, treaties)
    requires cur in known && forall x | x in known :: Linked(l, all, slot, x)
    ensures allies == known + Elements(found) && Elements(found) <= all
    ensures allies == known ==> found == []
    ensures forall x | x in allies :: Linked(l, all, slot, x)
    ensures forall k | 0 <= k < |treaties| :: Covered(treaties[k], cur, allies)
  {
    allies, found := known, [];
    for i := 0 to |treaties|
      invariant allies == known + Elements(found) && Elements(found) <= all
      invariant allies == known ==> found == []
      invariant forall x | x in allies :: Linked(l, all, slot, x)
      invariant forall k | 0 <= k < i :: Covered(treaties[k], cur, allies)
    {
      var other := OtherEnd(treaties[i], cur);
      ghost var before := allies;
      if treaties[i].stance == "alliance" && other != "" && other !in allies {
        WireEdgeIsAlliance(l, all, treaties, i, cur);
        LinkedOneMore(l, all, slot, cur, other);
        AppendElement(found, other);
        allies := allies + {other};
        found := found + [other];
      }
      CoverOneMore(treaties, i, cur, before, allies);
    }
  }

  lemma CoverOneMore(ts: seq<WireTreaty>, i: nat, cur: string, before: set<string>, after: set<string>)
    requires i < |ts| && before <= after && Covered(ts[i], cur, after)
    requires forall k | 0 <= k < i :: Covered(ts[k], cur, before)
    ensures forall k | 0 <= k < i + 1 :: Covered(ts[k], cur, after)
  {
  }

  /** Its worklist: allies are found by scanning the treaty list from both ends. */
  method AlliesOverWire(slot: string, treaties: seq<WireTreaty>, ghost l: Ledger, ghost all: set<string>)
    returns (allies: set<string>)
    requires l.WellFormed() && "" !in all && Transcribes(l, all, treaties)
    ensures allies == Component(l, all, slot)
  {
    allies := {slot};
    LinkedToSelf(l, all, slot);
    var stack := [slot];
    while |stack| > 0
      invariant slot in allies && allies <= all + {slot}
      invariant forall x | x in allies :: Linked(l, all, slot, x)
      invariant forall x | x in stack :: x in allies
      invariant Swept(l, all, allies, stack)
      decreases all + {slot} - allies, |stack|
    {
      var cur := stack[|stack| - 1];
      ghost var before, top := allies, stack;
      var found;
      allies, found := ScanTreaties(slot, cur, treaties, allies, l, all);
      stack := stack[..|stack| - 1] + found;
      WireScanFindsAll(l, all, treaties, cur, allies);
      HearTop(l, all, before, top, allies, found);
    }
    assert stack == [];
    ClosedIsComponent(l, all, allies, slot);
  }

  /** The engine and the gateway name the same leader. */
  method LeadersAgree(r: Registry, slot: string, allSlots: seq<string>, players: seq<string>, treaties: seq<WireTreaty>)
    returns (engine: string, gateway: string)
    requires r.Value().WellFormed() && "" !in players && Elements(players) == Elements(allSlots)
    requires Transcribes(r.Value(), Elements(players), treaties)
    ensures engine == gateway == CoalId(r.Value(), Elements(allSlots), slot)
  {
    engine := CoalitionID(r, slot, allSlots);
    gateway := CoalitionLeaderFor(slot, players, treaties, r.Value());
  }
}
