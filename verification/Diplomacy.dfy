/** Pairwise treaties and unilateral pacts: the registry of one match.  `Ledger` is the value
    of a registry and specifies each transition; `Registry` performs them in place. */
module Diplomacy {
  import opened Clock
  import opened StringOrder

  datatype Stance = War | Peace | Alliance
  datatype Pending = NoOffer | PeaceOffer | AllianceOffer
  datatype PactKind = ShareMap | RightOfWay

  /** An unordered pair of slots, written in sorted order. */
  datatype Pair = Pair(a: string, b: string)

  datatype Treaty = Treaty(slotA: string, slotB: string, stance: Stance, pending: Pending,
                           pendingFrom: string, changedAt: int, lastChangeFrom: string)

  datatype PactKey = PactKey(from: string, to: string, kind: PactKind)

  datatype Outcome = Done | SelfTreaty | Cooldown | NoPendingOffer | AlreadyAtStance | PactAlreadyGiven | PactMissing

  const COOLDOWN_BETWEEN_CHANGES: int := HOUR

  function SortedPair(a: string, b: string): (p: Pair)
    ensures p == Pair(a, b) || p == Pair(b, a)
  {
    if Less(b, a) then Pair(b, a) else Pair(a, b)
  }

  lemma SortedPairSymmetric(a: string, b: string)
    ensures SortedPair(a, b) == SortedPair(b, a)
    ensures a != b ==> Less(SortedPair(a, b).a, SortedPair(a, b).b)
  {
    Total(a, b);
    if Less(a, b) { Asymmetric(a, b); }
    if Less(b, a) { Asymmetric(b, a); }
  }

  function RequestedStance(p: Pending): Stance {
    match p
    case PeaceOffer => Peace
    case AllianceOffer => Alliance
    case NoOffer => War
  }

  predicate Between(k: PactKey, a: string, b: string) {
    (k.from == a && k.to == b) || (k.from == b && k.to == a)
  }

  /** What the players can ask for. */
  datatype Op =
    | DeclareWar(from: string, target: string)
    | Propose(from: string, target: string, offer: Pending)
    | Accept(accepter: string, other: string, want: Pending)
    | Grant(from: string, to: string, kind: PactKind)
    | Revoke(from: string, to: string, kind: PactKind)

  datatype Ledger = Ledger(treaties: map<Pair, Treaty>, pacts: map<PactKey, int>, version: nat)
  {
    function StanceOf(p: Pair): Stance {
      if p in treaties then treaties[p].stance else War
    }

    function Stance(a: string, b: string): Stance {
      if a == b then Peace else StanceOf(SortedPair(a, b))
    }

    function HasPact(from: string, to: string, kind: PactKind): bool {
      from == to || PactKey(from, to, kind) in pacts
    }

    function SeesThrough(viewer: string, owner: string): bool {
      viewer == owner || Stance(viewer, owner) == Alliance || HasPact(owner, viewer, ShareMap)
    }

    function MayMoveThrough(mover: string, owner: string): bool {
      if owner == "" || mover == owner then true
      else match Stance(mover, owner)
        case Alliance => true
        case Peace => HasPact(owner, mover, RightOfWay)
        case War => false
    }

    /** The record that a transition of the pair leaves behind. */
    function Upsert(a: string, b: string, stance: Stance, pending: Pending, pendingFrom: string,
                    now: int, changeFrom: string): Ledger
    {
      var k := SortedPair(a, b);
      var last := if changeFrom != "" then changeFrom else if k in treaties then treaties[k].lastChangeFrom else "";
      this.(treaties := treaties[k := Treaty(k.a, k.b, stance, pending, pendingFrom, now, last)],
            version := version + 1)
    }

    function WithoutPactsBetween(a: string, b: string): map<PactKey, int> {
      map k | k in pacts && !Between(k, a, b) :: pacts[k]
    }

    /** Whether op is refused, and why. */
    function Verdict(op: Op, now: int): Outcome {
      match op
      case DeclareWar(from, target) =>
        var k := SortedPair(from, target);
        if from == target then SelfTreaty
        else if StanceOf(k) == War then AlreadyAtStance
        else if k in treaties && now - treaties[k].changedAt < COOLDOWN_BETWEEN_CHANGES then Cooldown
        else Done
      case Propose(from, target, offer) =>
        var k := SortedPair(from, target);
        if from == target then SelfTreaty
        else if k in treaties && treaties[k].stance == RequestedStance(offer) then AlreadyAtStance
        else if k in treaties && now - treaties[k].changedAt < COOLDOWN_BETWEEN_CHANGES then Cooldown
        else Done
      case Accept(accepter, other, want) =>
        var k := SortedPair(accepter, other);
        if accepter != other && k in treaties && treaties[k].pending == want
           && treaties[k].pendingFrom != accepter && treaties[k].pendingFrom == other then Done
        else NoPendingOffer
      case Grant(from, to, kind) =>
        if from == to then SelfTreaty else if PactKey(from, to, kind) in pacts then PactAlreadyGiven else Done
      case Revoke(from, to, kind) =>
        if from == to then SelfTreaty else if PactKey(from, to, kind) !in pacts then PactMissing else Done
    }

    /** The ledger after op. */
    function After(op: Op, now: int): Ledger {
      if Verdict(op, now) != Done then this
      else match op
        case DeclareWar(from, target) =>
          var l := Upsert(from, target, War, NoOffer, "", now, from);
          var kept := WithoutPactsBetween(from, target);
          l.(pacts := kept, version := l.version + (if kept != pacts then 2 else 1))
        case Propose(from, target, offer) =>
          Upsert(from, target, StanceOf(SortedPair(from, target)), offer, from, now, "")
        case Accept(accepter, other, want) =>
          Upsert(accepter, other, RequestedStance(want), NoOffer, "", now, accepter)
        case Grant(from, to, kind) =>
          this.(pacts := pacts[PactKey(from, to, kind) := now], version := version + 1)
        case Revoke(from, to, kind) =>
          this.(pacts := pacts - {PactKey(from, to, kind)}, version := version + 1)
    }

    /** Records are filed under their own sorted pair; an offer is to the other side and for a
        stance the pair does not already have. */
    ghost predicate WellFormed() {
      forall k | k in treaties ::
        var t := treaties[k];
        && Less(k.a, k.b) && t.slotA == k.a && t.slotB == k.b
        && (t.pending != NoOffer ==> t.pendingFrom in {k.a, k.b} && t.stance != RequestedStance(t.pending))
    }
  }

  const EMPTY: Ledger := Ledger(map[], map[], 0)

  /** The offers a player can make or take up. */
  ghost predicate Sensible(op: Op) {
    && (op.Propose? ==> op.offer != NoOffer)
    && (op.Accept? ==> op.want != NoOffer)
  }

  lemma StepKeepsWellFormed(l: Ledger, op: Op, now: int)
    requires l.WellFormed() && Sensible(op)
    ensures l.After(op, now).WellFormed()
  {
    match op
    case DeclareWar(from, target) => SortedPairSymmetric(from, target);
    case Propose(from, target, offer) => SortedPairSymmetric(from, target);
    case Accept(accepter, other, want) => SortedPairSymmetric(accepter, other);
    case Grant(_, _, _) =>
    case Revoke(_, _, _) =>
  }

  /** A change of state is always visible in the version; a refusal changes nothing. */
  lemma VersionWitnessesChange(l: Ledger, op: Op, now: int)
    ensures l.version <= l.After(op, now).version
    ensures l.After(op, now).version == l.version <==> l.After(op, now) == l
    ensures l.Verdict(op, now) != Done <==> l.After(op, now) == l
  {
  }

  /** War between a pair cancels its pacts and offers and touches nothing else. */
  lemma WarIsSurgical(l: Ledger, from: string, target: string, now: int)
    requires l.Verdict(DeclareWar(from, target), now) == Done
    ensures var l' := l.After(DeclareWar(from, target), now);
            && l'.Stance(from, target) == l'.Stance(target, from) == War
            && l'.treaties[SortedPair(from, target)].pending == NoOffer
            && (forall kind :: !l'.HasPact(from, target, kind) && !l'.HasPact(target, from, kind))
            && (forall k | !Between(k, from, target) :: k in l'.pacts <==> k in l.pacts)
            && (forall k | k in l'.pacts :: l'.pacts[k] == l.pacts[k])
            && (forall p | p != SortedPair(from, target) :: l'.StanceOf(p) == l.StanceOf(p))
  {
    SortedPairSymmetric(from, target);
  }

  class Registry {
    var treaties: map<Pair, Treaty>
    var pacts: map<PactKey, int>
    var version: nat

    function Value(): Ledger
      reads this
    {
      Ledger(treaties, pacts, version)
    }

    constructor ()
      ensures Value() == EMPTY
    {
      treaties, pacts, version := map[], map[], 0;
    }

    method GetStance(a: string, b: string) returns (s: Stance)
      ensures s == Value().Stance(a, b)
    {
      if a == b {
        return Peace;
      }
      var k := SortedPair(a, b);
      if k !in treaties {
        return War;
      }
      s := treaties[k].stance;
    }

    method Upsert(a: string, b: string, stance: Stance, pending: Pending, pendingFrom: string,
                  now: int, changeFrom: string)
      modifies this`treaties, this`version
      ensures Value() == old(Value()).Upsert(a, b, stance, pending, pendingFrom, now, changeFrom)
    {
      var k := SortedPair(a, b);
      var t := if k in treaties then treaties[k] else Treaty(k.a, k.b, War, NoOffer, "", 0, "");
      t := t.(slotA := k.a, slotB := k.b, stance := stance, pending := pending, pendingFrom := pendingFrom,
          changedAt := now);
      if changeFrom != "" {
        t := t.(lastChangeFrom := changeFrom);
      }
      treaties := treaties[k := t];
      version := version + 1;
    }

    method RevokeAllBetween(a: string, b: string)
      modifies this`pacts, this`version
      ensures pacts == old(Value()).WithoutPactsBetween(a, b)
      ensures version == old(version) + (if pacts != old(pacts) then 1 else 0)
    {
      var changed := false;
      var rest := pacts.Keys;
      while rest != {}
        invariant rest <= old(pacts).Keys
        invariant pacts == map k | k in old(pacts) && (k in rest || !Between(k, a, b)) :: old(pacts)[k]
        invariant (changed <==> pacts != old(pacts)) && version == old(version)
        decreases rest
      {
        var k :| k in rest;
        rest := rest - {k};
        if Between(k, a, b) {
          pacts := pacts - {k};
          changed := true;
          assert k in old(pacts) && k !in pacts;
        }
      }
      if changed {
        version := version + 1;
      }
    }

    method DeclareWar(from: string, target: string, now: int) returns (r: Outcome)
      modifies this
      ensures r == old(Value()).Verdict(Op.DeclareWar(from, target), now)
      ensures Value() == old(Value()).After(Op.DeclareWar(from, target), now)
    {
      if from == target {
        return SelfTreaty;
      }
      var s := GetStance(from, target);
      if s == War {
        return AlreadyAtStance;
      }
      var k := SortedPair(from, target);
      if k in treaties && now - treaties[k].changedAt < COOLDOWN_BETWEEN_CHANGES {
        return Cooldown;
      }
      Upsert(from, target, War, NoOffer, "", now, from);
      RevokeAllBetween(from, target);
      version := version + 1;
      r := Done;
    }

    /** ProposePeace and ProposeAlliance. */
    method Propose(from: string, target: string, kind: Pending, now: int) returns (r: Outcome)
      modifies this
      ensures r == old(Value()).Verdict(Op.Propose(from, target, kind), now)
      ensures Value() == old(Value()).After(Op.Propose(from, target, kind), now)
    {
      if from == target {
        return SelfTreaty;
      }
      var k := SortedPair(from, target);
      var stance := War;
      if k in treaties {
        stance := treaties[k].stance;
        if stance == RequestedStance(kind) {
          return AlreadyAtStance;
        }
        if now - treaties[k].changedAt < COOLDOWN_BETWEEN_CHANGES {
          return Cooldown;
        }
      }
      Upsert(from, target, stance, kind, from, now, "");
      r := Done;
    }

    /** AcceptPeace and AcceptAlliance. */
    method Accept(accepter: string, other: string, want: Pending, now: int) returns (r: Outcome)
      modifies this
      ensures r == old(Value()).Verdict(Op.Accept(accepter, other, want), now)
      ensures Value() == old(Value()).After(Op.Accept(accepter, other, want), now)
    {
      var k := SortedPair(accepter, other);
      if accepter == other || k !in treaties || treaties[k].pending != want
         || treaties[k].pendingFrom == accepter || treaties[k].pendingFrom != other {
        return NoPendingOffer;
      }
      Upsert(accepter, other, RequestedStance(want), NoOffer, "", now, accepter);
      r := Done;
    }

    method GrantPact(from: string, to: string, kind: PactKind, now: int) returns (r: Outcome)
      modifies this
      ensures r == old(Value()).Verdict(Op.Grant(from, to, kind), now)
      ensures Value() == old(Value()).After(Op.Grant(from, to, kind), now)
    {
      if from == to {
        return SelfTreaty;
      }
      var k := PactKey(from, to, kind);
      if k in pacts {
        return PactAlreadyGiven;
      }
      pacts := pacts[k := now];
      version := version + 1;
      r := Done;
    }

    method RevokePact(from: string, to: string, kind: PactKind, now: int) returns (r: Outcome)
      modifies this
      ensures r == old(Value()).Verdict(Op.Revoke(from, to, kind), now)
      ensures Value() == old(Value()).After(Op.Revoke(from, to, kind), now)
    {
      if from == to {
        return SelfTreaty;
      }
      var k := PactKey(from, to, kind);
      if k !in pacts {
        return PactMissing;
      }
      pacts := pacts - {k};
      version := version + 1;
      r := Done;
    }

    /** Perform one request. */
    method Perform(op: Op, now: int) returns (r: Outcome)
      modifies this
      ensures r == old(Value()).Verdict(op, now)
      ensures Value() == old(Value()).After(op, now)
    {
      match op
      case DeclareWar(from, target) => r := DeclareWar(from, target, now);
      case Propose(from, target, offer) => r := Propose(from, target, offer, now);
      case Accept(accepter, other, want) => r := Accept(accepter, other, want, now);
      case Grant(from, to, kind) => r := GrantPact(from, to, kind, now);
      case Revoke(from, to, kind) => r := RevokePact(from, to, kind, now);
    }
  }
}
