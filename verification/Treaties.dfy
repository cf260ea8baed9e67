/** What diplomatic requests leave behind: when they may be repeated, and what stays on record. */
module Treaties {
  import opened Clock
  import opened StringOrder
  import opened Diplomacy
  import opened DiplomacyRuns

  // ---------- when requests are heard ----------

  /** op declares war between a and b, makes an offer between them, or takes one up, either way round. */
  predicate Concerns(op: Op, a: string, b: string) {
    match op
    case DeclareWar(from, target) => (from == a && target == b) || (from == b && target == a)
    case Propose(from, target, _) => (from == a && target == b) || (from == b && target == a)
    case Accept(accepter, other, _) => (accepter == a && other == b) || (accepter == b && other == a)
    case Grant(_, _, _) => false
    case Revoke(_, _, _) => false
  }

  /** The stance that op is after. */
  function Aim(op: Op): Stance
    requires op.DeclareWar? || op.Propose?
  {
    if op.DeclareWar? then War else if op.offer == PeaceOffer then Peace else Alliance
  }

  /** Whichever of two slots has last declared war on the other, made it an offer or taken one up, from then on for
      an hour, and no longer, neither side may declare war or make an offer; and never for what they are already. */
  lemma PairsRestForAnHour(l: Ledger, op: Op, since: int, next: Op, now: int, a: string, b: string)
    requires l.Verdict(op, since) == Done && Concerns(op, a, b) && Concerns(next, a, b)
    requires Sensible(op) && Sensible(next) && (next.DeclareWar? || next.Propose?)
    ensures var l' := l.After(op, since);
            && (l'.Verdict(next, now) == AlreadyAtStance <==> l'.Stance(a, b) == Aim(next))
            && (l'.Verdict(next, now) == Cooldown <==> l'.Stance(a, b) != Aim(next) && now < since + 3600 * SECOND)
            && (l'.Verdict(next, now) == Done <==> l'.Stance(a, b) != Aim(next) && since + 3600 * SECOND <= now)
  {
    SortedPairSymmetric(a, b);
  }

  /** Slots that have had nothing to do with each other are at war, and may make each other any offer at once. */
  lemma StrangersMayOffer(l: Ledger, from: string, target: string, offer: Pending, now: int)
    requires from != target && SortedPair(from, target) !in l.treaties && offer != NoOffer
    ensures l.Stance(from, target) == War && l.Verdict(DeclareWar(from, target), now) == AlreadyAtStance
    ensures l.Verdict(Propose(from, target, offer), now) == Done
    ensures var l' := l.After(Propose(from, target, offer), now);
            && l'.Stance(from, target) == War
            && forall later :: l'.Verdict(Accept(target, from, offer), later) == Done
                 && l'.Verdict(Accept(from, target, offer), later) == NoPendingOffer
  {
    SortedPairSymmetric(from, target);
  }

  /** Pacts need no stance and no waiting: one that was given can be taken back at any time, whatever the two are to
      each other, which leaves everything but the version as it was, and can then be given again. */
  lemma PactsComeAndGo(l: Ledger, from: string, to: string, kind: PactKind, now: int, later: int)
    requires from != to && PactKey(from, to, kind) !in l.pacts
    ensures l.Verdict(Grant(from, to, kind), now) == Done && l.Verdict(Revoke(from, to, kind), now) == PactMissing
    ensures var l1 := l.After(Grant(from, to, kind), now);
            var l2 := l1.After(Revoke(from, to, kind), later);
            && l1.Verdict(Grant(from, to, kind), later) == PactAlreadyGiven
            && l1.Verdict(Revoke(from, to, kind), later) == Done
            && l2 == l.(version := l.version + 2) && l2.Verdict(Grant(from, to, kind), later) == Done
  {
  }

  /** Nobody asks anything of themselves: they are at peace with themselves, and stay so. */
  lemma NobodyTreatsWithThemselves(l: Ledger, op: Op, now: int, a: string)
    requires Concerns(op, a, a) || op == Grant(a, a, ShareMap) || op == Grant(a, a, RightOfWay)
    ensures l.Verdict(op, now) != Done && l.After(op, now) == l && l.Stance(a, a) == Peace
    ensures l.SeesThrough(a, a) && l.MayMoveThrough(a, a)
  {
  }

  // ---------- what stays on record ----------

  /** The slot that signs op: whoever declares war, or takes up an offer. */
  function Signer(op: Op): string {
    if op.DeclareWar? then op.from else if op.Accept? then op.accepter else ""
  }

  /** The signer of the last request that changed the stance of the pair, or confirmed it. */
  ghost function LastSigner(rs: seq<Request>, p: Pair, n: nat): string
    requires n <= |rs|
  {
    if n == 0 then ""
    else
      var r := rs[n - 1];
      if Concerns(r.op, p.a, p.b) && Signer(r.op) != "" && State(rs, n - 1).Verdict(r.op, r.now) == Done
      then Signer(r.op)
      else LastSigner(rs, p, n - 1)
  }

  lemma ConcernsIsFiledUnder(op: Op, p: Pair)
    requires Less(p.a, p.b)
    ensures Concerns(op, p.a, p.b) <==>
            match op
            case DeclareWar(from, target) => SortedPair(from, target) == p
            case Propose(from, target, _) => SortedPair(from, target) == p
            case Accept(accepter, other, _) => SortedPair(accepter, other) == p
            case Grant(_, _, _) => false
            case Revoke(_, _, _) => false
  {
    SortedPairSymmetric(p.a, p.b);
    if Less(p.b, p.a) {
      Asymmetric(p.a, p.b);
    }
  }

  /** The record of a pair after a request. */
  lemma RecordAfter(l: Ledger, op: Op, now: int, p: Pair)
    requires Less(p.a, p.b)
    ensures var t := l.After(op, now).treaties;
            if Concerns(op, p.a, p.b) && l.Verdict(op, now) == Done then
              && p in t && t[p].changedAt == now
              && t[p].lastChangeFrom ==
                   if Signer(op) != "" then Signer(op) else if p in l.treaties then l.treaties[p].lastChangeFrom else ""
            else (p in t <==> p in l.treaties) && (p in t ==> t[p] == l.treaties[p])
  {
    ConcernsIsFiledUnder(op, p);
  }

  /** Over every run, the record of a pair names whoever last declared war on the other side, or took up its
      offer. */
  lemma {:induction false} ChangesAreSigned(rs: seq<Request>, p: Pair, n: nat)
    requires n <= |rs| && Less(p.a, p.b)
    ensures p in State(rs, n).treaties ==> State(rs, n).treaties[p].lastChangeFrom == LastSigner(rs, p, n)
    ensures p !in State(rs, n).treaties ==> LastSigner(rs, p, n) == ""
  {
    hide Ledger.After, Ledger.Verdict, Signer, Concerns;
    if n != 0 {
      ChangesAreSigned(rs, p, n - 1);
      RecordAfter(State(rs, n - 1), rs[n - 1].op, rs[n - 1].now, p);
    }
  }

  /** When the pact was last given. */
  ghost function GivenAt(rs: seq<Request>, k: PactKey, n: nat): int
    requires n <= |rs|
  {
    if n == 0 then 0
    else
      var r := rs[n - 1];
      if r.op == Grant(k.from, k.to, k.kind) && State(rs, n - 1).Verdict(r.op, r.now) == Done then r.now
      else GivenAt(rs, k, n - 1)
  }

  lemma PactAfter(l: Ledger, op: Op, now: int, k: PactKey)
    requires k in l.After(op, now).pacts
    ensures if op == Grant(k.from, k.to, k.kind) && l.Verdict(op, now) == Done then l.After(op, now).pacts[k] == now
            else k in l.pacts && l.After(op, now).pacts[k] == l.pacts[k]
  {
  }

  /** Over every run, a pact in force carries the time at which it was last given. */
  lemma {:induction false} PactsAreDated(rs: seq<Request>, k: PactKey, n: nat)
    requires n <= |rs| && k in State(rs, n).pacts
    ensures State(rs, n).pacts[k] == GivenAt(rs, k, n)
  {
    hide Ledger.After, Ledger.Verdict;
    if n != 0 {
      PactAfter(State(rs, n - 1), rs[n - 1].op, rs[n - 1].now, k);
      if k in State(rs, n - 1).pacts {
        PactsAreDated(rs, k, n - 1);
      }
    }
  }
}
