/** What diplomacy opens and closes: whose map a slot sees, where its units may go and where they fight, request
    by request. */
module Borders {
  import opened StringOrder
  import opened Diplomacy
  import opened Coalitions
  import opened MatchState
  import opened Histories
  import opened Visibility
  import opened Commands

  // ---------- who is allied ----------

  ghost predicate SameAlliances(l: Ledger, l': Ledger) {
    forall a, b :: Allied(l', a, b) <==> Allied(l, a, b)
  }

  lemma LinksAgree(l: Ledger, l': Ledger, all: set<string>, a: string, b: string)
    requires SameAlliances(l, l')
    ensures Linked(l', all, a, b) <==> Linked(l, all, a, b)
  {
    hide Allied;
    if Linked(l, all, a, b) {
      var c :| Chain(l, all, c) && c[0] == a && c[|c| - 1] == b;
      assert Chain(l', all, c);
    }
    if Linked(l', all, a, b) {
      var c :| Chain(l', all, c) && c[0] == a && c[|c| - 1] == b;
      assert Chain(l, all, c);
    }
  }

  lemma CoalitionsAgree(l: Ledger, l': Ledger, all: set<string>, slot: string)
    requires SameAlliances(l, l')
    ensures Component(l', all, slot) == Component(l, all, slot)
  {
    forall x
      ensures Linked(l', all, slot, x) <==> Linked(l, all, slot, x)
    {
      LinksAgree(l, l', all, slot, x);
    }
  }

  lemma PactsAreNoAlliances(l: Ledger, from: string, to: string, kind: PactKind, now: int)
    ensures SameAlliances(l, l.After(Grant(from, to, kind), now))
    ensures SameAlliances(l, l.After(Revoke(from, to, kind), now))
  {
  }

  // ---------- whose map is seen ----------

  /** Sharing a map opens the sharer's map to the other slot; nobody else sees more or less. */
  lemma SharingOpensOneMap(l: Ledger, players: set<string>, from: string, to: string, now: int, slot: string)
    requires l.Verdict(Grant(from, to, ShareMap), now) == Done && from in players
    ensures Contributors(l.After(Grant(from, to, ShareMap), now), players, slot)
         == Contributors(l, players, slot) + (if slot == to then {from} else {})
  {
    PactsAreNoAlliances(l, from, to, ShareMap, now);
    CoalitionsAgree(l, l.After(Grant(from, to, ShareMap), now), players, slot);
  }

  /** No longer sharing it closes it again, unless both are of one coalition; nobody else sees less or more. */
  lemma UnsharingClosesOneMap(l: Ledger, players: set<string>, from: string, to: string, now: int, slot: string)
    requires l.Verdict(Revoke(from, to, ShareMap), now) == Done && from in players
    ensures Contributors(l.After(Revoke(from, to, ShareMap), now), players, slot)
         == Contributors(l, players, slot) - (if slot == to && !Linked(l, players, to, from) then {from} else {})
  {
    var l' := l.After(Revoke(from, to, ShareMap), now);
    PactsAreNoAlliances(l, from, to, ShareMap, now);
    CoalitionsAgree(l, l', players, slot);
    forall x
      ensures x in Contributors(l', players, slot) <==>
              x in Contributors(l, players, slot) && !(x == from && slot == to && !Linked(l, players, to, from))
    {
      if x == from && slot == to && l.Stance(to, from) == Alliance {
        LinkedToSelf(l, players, to);
        LinkedOneMore(l, players, to, to, from);
      }
    }
  }

  /** Rights of way show nobody's map. */
  lemma WaysShowNothing(l: Ledger, players: set<string>, from: string, to: string, now: int, slot: string)
    ensures Contributors(l.After(Grant(from, to, RightOfWay), now), players, slot) == Contributors(l, players, slot)
    ensures Contributors(l.After(Revoke(from, to, RightOfWay), now), players, slot) == Contributors(l, players, slot)
  {
    PactsAreNoAlliances(l, from, to, RightOfWay, now);
    CoalitionsAgree(l, l.After(Grant(from, to, RightOfWay), now), players, slot);
    CoalitionsAgree(l, l.After(Revoke(from, to, RightOfWay), now), players, slot);
  }

  /** An offer alone changes nothing of that. */
  lemma OffersShowNothing(l: Ledger, players: set<string>, from: string, to: string, offer: Pending, now: int,
      slot: string)
    ensures Contributors(l.After(Propose(from, to, offer), now), players, slot) == Contributors(l, players, slot)
  {
    var l' := l.After(Propose(from, to, offer), now);
    forall a, b
      ensures l'.Stance(a, b) == l.Stance(a, b)
    {
      SortedPairSymmetric(a, b);
    }
    CoalitionsAgree(l, l', players, slot);
  }

  /** After war is declared, neither side sees the other's map, unless a chain of other alliances joins them. */
  lemma WarClosesMaps(l: Ledger, players: set<string>, from: string, target: string, now: int)
    requires l.Verdict(DeclareWar(from, target), now) == Done && from in players && target in players
    ensures var l' := l.After(DeclareWar(from, target), now);
            && (target in Contributors(l', players, from) <==> Linked(l', players, from, target))
            && (from in Contributors(l', players, target) <==> Linked(l', players, from, target))
  {
    WarIsSurgical(l, from, target, now);
    LinkedSymmetric(l.After(DeclareWar(from, target), now), players, from, target);
    LinkedSymmetric(l.After(DeclareWar(from, target), now), players, target, from);
  }

  /** After an alliance is accepted, both sides see with the same eyes, but for maps shared with one of them. */
  lemma AlliesSeeTogether(l: Ledger, players: set<string>, a: string, b: string, now: int)
    requires l.Verdict(Accept(a, b, AllianceOffer), now) == Done && a in players && b in players
    ensures var l' := l.After(Accept(a, b, AllianceOffer), now);
            && Component(l', players, a) == Component(l', players, b)
            && a in Contributors(l', players, b) && b in Contributors(l', players, a)
  {
    var l' := l.After(Accept(a, b, AllianceOffer), now);
    LinkedToSelf(l', players, a);
    LinkedOneMore(l', players, a, a, b);
    CoalitionsPartition(l', players, a, b);
  }

  // ---------- where units may go ----------

  /** Province p belongs to slot. */
  predicate Holds(provinces: ProvinceTable, p: string, slot: string) {
    slot != "" && p in provinces && provinces[p].owner == slot
  }

  /** A right of way opens the granter's provinces to the other slot, and nothing else to anyone. */
  lemma GrantingOpensTheWay(l: Ledger, from: string, to: string, now: int, provinces: ProvinceTable, mover: string,
      p: string)
    requires l.Verdict(Grant(from, to, RightOfWay), now) == Done
    ensures var l' := l.After(Grant(from, to, RightOfWay), now);
            && (LegBlocked(l', provinces, mover, p) <==>
                  LegBlocked(l, provinces, mover, p) && !(mover == to && Holds(provinces, p, from)))
            && (HostileEnd(l', provinces, mover, p) <==> HostileEnd(l, provinces, mover, p))
  {
  }

  /** Revoked, it bars them again to a slot that is at peace with the granter, and nothing else to anyone. */
  lemma RevokingBarsTheWay(l: Ledger, from: string, to: string, now: int, provinces: ProvinceTable, mover: string,
      p: string)
    requires l.Verdict(Revoke(from, to, RightOfWay), now) == Done
    ensures var l' := l.After(Revoke(from, to, RightOfWay), now);
            && (LegBlocked(l', provinces, mover, p) <==>
                  || LegBlocked(l, provinces, mover, p)
                  || (mover == to && Holds(provinces, p, from) && l.Stance(from, to) == Peace))
            && (HostileEnd(l', provinces, mover, p) <==> HostileEnd(l, provinces, mover, p))
  {
    SortedPairSymmetric(from, to);
  }

  /** After war is declared, each side's provinces are hostile to the other, and barred to neither. */
  lemma WarMakesHostile(l: Ledger, from: string, target: string, now: int, provinces: ProvinceTable, mover: string,
      p: string)
    requires l.Verdict(DeclareWar(from, target), now) == Done
    ensures var l' := l.After(DeclareWar(from, target), now);
            var theirs := (mover == from && Holds(provinces, p, target))
                || (mover == target && Holds(provinces, p, from));
            && (HostileEnd(l', provinces, mover, p) <==> theirs || HostileEnd(l, provinces, mover, p))
            && (LegBlocked(l', provinces, mover, p) <==> !theirs && LegBlocked(l, provinces, mover, p))
  {
    SortedPairSymmetric(from, target);
  }

  /** After peace is accepted, neither side's provinces are hostile to the other; they are barred to it but for
      a right of way from their owner. */
  lemma PeaceBarsTheWay(l: Ledger, a: string, b: string, now: int, provinces: ProvinceTable, mover: string, p: string)
    requires l.Verdict(Accept(a, b, PeaceOffer), now) == Done
    ensures var l' := l.After(Accept(a, b, PeaceOffer), now);
            var theirs := (mover == a && Holds(provinces, p, b)) || (mover == b && Holds(provinces, p, a));
            && (HostileEnd(l', provinces, mover, p) <==> !theirs && HostileEnd(l, provinces, mover, p))
            && (!theirs ==> (LegBlocked(l', provinces, mover, p) <==> LegBlocked(l, provinces, mover, p)))
            && (theirs ==>
                  (LegBlocked(l', provinces, mover, p) <==>
                     PactKey(provinces[p].owner, mover, RightOfWay) !in l.pacts))
  {
    SortedPairSymmetric(a, b);
  }

  /** After an alliance is accepted, neither side's provinces are hostile or barred to the other. */
  lemma AlliancesOpenTheWay(l: Ledger, a: string, b: string, now: int, provinces: ProvinceTable, mover: string,
      p: string)
    requires l.Verdict(Accept(a, b, AllianceOffer), now) == Done
    ensures var l' := l.After(Accept(a, b, AllianceOffer), now);
            var theirs := (mover == a && Holds(provinces, p, b)) || (mover == b && Holds(provinces, p, a));
            && (HostileEnd(l', provinces, mover, p) <==> !theirs && HostileEnd(l, provinces, mover, p))
            && (LegBlocked(l', provinces, mover, p) <==> !theirs && LegBlocked(l, provinces, mover, p))
  {
    SortedPairSymmetric(a, b);
  }

  /** When a match begins, everyone is at war with everyone: every province of another slot is hostile, none is
      barred, and each slot sees with its own eyes only. */
  lemma AllBeginAtWar(players: set<string>, provinces: ProvinceTable, mover: string, p: string)
    ensures HostileEnd(EMPTY, provinces, mover, p) <==>
            p in provinces && provinces[p].owner != "" && provinces[p].owner != mover
    ensures !LegBlocked(EMPTY, provinces, mover, p)
    ensures Contributors(EMPTY, players, mover) == {mover}
  {
    LinkedToSelf(EMPTY, players, mover);
    assert Heard(EMPTY, players, {mover}, mover);
    ClosedIsComponent(EMPTY, players, {mover}, mover);
  }

  // ---------- commands ----------

  /** Who may ask what of whom, and what is said to whoever may not; whatever is refused changes nothing. */
  lemma DealingIsAllowedIff(s: Snapshot, issuer: string, action: Action, target: string, reply: Reply, t: Snapshot)
    requires DiplomacyHandled(s, issuer, action, target, reply, t)
    ensures reply == MissingTarget <==> target == ""
    ensures reply == UnknownTarget <==> target != "" && target !in s.a.players
    ensures reply == SelfTarget <==> target != "" && target in s.a.players && target == issuer
    ensures reply == Accepted || reply.Rejected? <==> target != "" && target in s.a.players && target != issuer
    ensures reply != Accepted ==> t == s
    ensures reply == Accepted ==> t.ledger != s.ledger
  {
    hide ReportOf, OpOf, Ledger.Verdict, Ledger.After;
    if Addressed(s.a.players, issuer, target) {
      VersionWitnessesChange(s.ledger, OpOf(action, issuer, target), s.a.clock);
    }
  }

  /** What an accepted diplomatic command has done, told by what the slots may then do. */
  lemma CommandsDoWhatTheySay(s: Snapshot, issuer: string, action: Action, target: string, t: Snapshot, p: string)
    requires DiplomacyHandled(s, issuer, action, target, Accepted, t) && issuer in s.a.players && issuer != ""
    ensures target in s.a.players && target != issuer
    ensures match action
            case MakeWar => SignedBy(t.ledger, issuer, target)
                && (Holds(s.a.provinces, p, target) ==> HostileEnd(t.ledger, s.a.provinces, issuer, p))
            case OfferPeace => SameAlliances(s.ledger, t.ledger) && MayTakeUp(t.ledger, target, issuer, PeaceOffer)
            case OfferAlliance =>
                SameAlliances(s.ledger, t.ledger) && MayTakeUp(t.ledger, target, issuer, AllianceOffer)
            case TakePeace => SignedBy(t.ledger, issuer, target) && !Allied(t.ledger, issuer, target)
                && (Holds(s.a.provinces, p, target) ==> !HostileEnd(t.ledger, s.a.provinces, issuer, p))
            case TakeAlliance => SignedBy(t.ledger, issuer, target)
                && Component(t.ledger, s.a.players, issuer) == Component(t.ledger, s.a.players, target)
            case ShareTheMap => issuer in Contributors(t.ledger, s.a.players, target)
            case StopSharing => issuer in Contributors(t.ledger, s.a.players, target) <==>
                Linked(s.ledger, s.a.players, target, issuer)
            case GrantWay => Holds(s.a.provinces, p, issuer) ==> !LegBlocked(t.ledger, s.a.provinces, target, p)
            case RevokeWay => Holds(s.a.provinces, p, issuer) ==>
                (LegBlocked(t.ledger, s.a.provinces, target, p) <==> s.ledger.Stance(issuer, target) == Peace)
    ensures |t.a.log| == |s.a.log| + 1
    ensures t.a.log[|s.a.log|].kind ==
            match action
            case MakeWar => WarDeclared
            case OfferPeace => PeaceProposed
            case OfferAlliance => AllianceProposed
            case TakePeace => PeaceSigned
            case TakeAlliance => AllianceSigned
            case ShareTheMap => PactGranted
            case GrantWay => PactGranted
            case StopSharing => PactRevoked
            case RevokeWay => PactRevoked
  {
    hide Component, Contributors, Linked, SameAlliances, Allied, LegBlocked, HostileEnd, MayTakeUp;
    var l, now, all, ps := s.ledger, s.a.clock, s.a.players, s.a.provinces;
    match action {
      case MakeWar => WarMakesHostile(l, issuer, target, now, ps, issuer, p);
      case OfferPeace => OffersMakeNoAlliances(l, issuer, target, PeaceOffer, now);
      case OfferAlliance => OffersMakeNoAlliances(l, issuer, target, AllianceOffer, now);
      case TakePeace =>
        PeaceBarsTheWay(l, issuer, target, now, ps, issuer, p);
        PeaceIsNoAlliance(l, issuer, target, now);
      case TakeAlliance => AlliesSeeTogether(l, all, issuer, target, now);
      case ShareTheMap => SharingOpensOneMap(l, all, issuer, target, now, target);
      case StopSharing => UnsharedMapsAreClosed(l, all, issuer, target, now);
      case GrantWay => GrantingOpensTheWay(l, issuer, target, now, ps, target, p);
      case RevokeWay =>
        if Holds(ps, p, issuer) {
          RevokedWaysAreBarred(l, issuer, target, now, ps, p);
        }
    }
  }

  /** Whenever it asks to, the slot takes up this offer of the other one. */
  ghost predicate MayTakeUp(l: Ledger, slot: string, other: string, offer: Pending) {
    forall later :: l.Verdict(Accept(slot, other, offer), later) == Done
  }

  /** The record of the two slots names this one as the one that last changed it. */
  ghost predicate SignedBy(l: Ledger, slot: string, other: string) {
    var p := SortedPair(slot, other);
    p in l.treaties && l.treaties[p].lastChangeFrom == slot
  }

  lemma OffersMakeNoAlliances(l: Ledger, from: string, to: string, offer: Pending, now: int)
    ensures SameAlliances(l, l.After(Propose(from, to, offer), now))
    ensures l.Verdict(Propose(from, to, offer), now) == Done ==>
        MayTakeUp(l.After(Propose(from, to, offer), now), to, from, offer)
  {
    SortedPairSymmetric(from, to);
  }

  lemma PeaceIsNoAlliance(l: Ledger, a: string, b: string, now: int)
    requires l.Verdict(Accept(a, b, PeaceOffer), now) == Done
    ensures !Allied(l.After(Accept(a, b, PeaceOffer), now), a, b)
  {
  }

  lemma UnsharedMapsAreClosed(l: Ledger, players: set<string>, from: string, to: string, now: int)
    requires l.Verdict(Revoke(from, to, ShareMap), now) == Done && from in players
    ensures from in Contributors(l.After(Revoke(from, to, ShareMap), now), players, to) <==>
            Linked(l, players, to, from)
  {
    UnsharingClosesOneMap(l, players, from, to, now, to);
  }

  lemma RevokedWaysAreBarred(l: Ledger, from: string, to: string, now: int, provinces: ProvinceTable, p: string)
    requires l.Verdict(Revoke(from, to, RightOfWay), now) == Done && Holds(provinces, p, from)
    ensures LegBlocked(l.After(Revoke(from, to, RightOfWay), now), provinces, to, p) <==> l.Stance(from, to) == Peace
  {
    RevokingBarsTheWay(l, from, to, now, provinces, to, p);
    SortedPairSymmetric(from, to);
  }
}
