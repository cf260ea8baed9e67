/** What holds over every run of diplomatic requests, accepted and refused alike. */
module DiplomacyRuns {
  import opened Clock
  import opened StringOrder
  import opened Diplomacy

  /** A request and the game time at which it is dispatched. */
  datatype Request = Request(op: Op, now: int)

  /** The ledger after the first n requests of a match. */
  ghost function State(rs: seq<Request>, n: nat): Ledger
    requires n <= |rs|
  {
    if n == 0 then EMPTY else State(rs, n - 1).After(rs[n - 1].op, rs[n - 1].now)
  }

  ghost predicate Orderly(rs: seq<Request>) {
    forall i | 0 <= i < |rs| :: Sensible(rs[i].op)
  }

  /** The clock never runs backwards. */
  ghost predicate Monotone(rs: seq<Request>) {
    forall i, j | 0 <= i <= j < |rs| :: rs[i].now <= rs[j].now
  }

  /** Request i changes the stance of the pair. */
  ghost predicate Changes(rs: seq<Request>, p: Pair, i: nat)
    requires i < |rs|
  {
    State(rs, i + 1).StanceOf(p) != State(rs, i).StanceOf(p)
  }

  lemma {:induction false} AlwaysWellFormed(rs: seq<Request>, n: nat)
    requires n <= |rs| && Orderly(rs)
    ensures State(rs, n).WellFormed()
  {
    if n == 0 {
    } else {
      AlwaysWellFormed(rs, n - 1);
      StepKeepsWellFormed(State(rs, n - 1), rs[n - 1].op, rs[n - 1].now);
    }
  }

  /** No record carries a time in the future. */
  lemma {:induction false} RecordsAreOfThePast(rs: seq<Request>, n: nat, p: Pair)
    requires n < |rs| && Monotone(rs)
    ensures p in State(rs, n).treaties ==> State(rs, n).treaties[p].changedAt <= rs[n].now
  {
    if n == 0 {
    } else {
      RecordsAreOfThePast(rs, n - 1, p);
      assert rs[n - 1].now <= rs[n].now;
    }
  }

  /** The pair changed stance at `since` or later, and any offer now open was made at least
      a cooldown after `since`. */
  ghost predicate Cooling(l: Ledger, p: Pair, since: int) {
    && p in l.treaties
    && since <= l.treaties[p].changedAt
    && (l.treaties[p].pending != NoOffer ==> since + COOLDOWN_BETWEEN_CHANGES <= l.treaties[p].changedAt)
  }

  /** If op accepts an offer, then not at a time before the offer was made.  The program does not check
      this. */
  predicate InTime(l: Ledger, op: Op, now: int) {
    op.Accept? && l.Verdict(op, now) == Done ==> l.treaties[SortedPair(op.accepter, op.other)].changedAt <= now
  }

  /** No offer is accepted at a time before it was made. */
  ghost predicate Timely(rs: seq<Request>) {
    forall i {:trigger rs[i]} | 0 <= i < |rs| :: InTime(State(rs, i), rs[i].op, rs[i].now)
  }

  /** One step under the cooldown: it persists, and a change now is late enough. */
  lemma CoolingStep(l: Ledger, op: Op, now: int, p: Pair, since: int)
    requires l.WellFormed() && Sensible(op) && Cooling(l, p, since) && InTime(l, op, now)
    ensures Cooling(l.After(op, now), p, since)
    ensures l.After(op, now).StanceOf(p) != l.StanceOf(p) ==> since + COOLDOWN_BETWEEN_CHANGES <= now
  {
  }

  /** A change of stance starts the cooldown. */
  lemma ChangeStartsCooling(l: Ledger, op: Op, now: int, p: Pair)
    requires l.After(op, now).StanceOf(p) != l.StanceOf(p)
    ensures Cooling(l.After(op, now), p, now)
  {
  }

  lemma {:induction false} CoolingLasts(rs: seq<Request>, p: Pair, i: nat, n: nat)
    requires Orderly(rs) && Timely(rs) && i < n <= |rs| && Changes(rs, p, i)
    ensures Cooling(State(rs, n), p, rs[i].now)
  {
    hide Ledger.After, Ledger.Verdict, Ledger.WellFormed, InTime;
    if n == i + 1 {
      ChangeStartsCooling(State(rs, i), rs[i].op, rs[i].now, p);
    } else {
      CoolingLasts(rs, p, i, n - 1);
      AlwaysWellFormed(rs, n - 1);
      CoolingStep(State(rs, n - 1), rs[n - 1].op, rs[n - 1].now, p, rs[i].now);
    }
  }

  /** Whatever the clock does, any two changes of the same pair's stance lie at least one cooldown
      apart, although accepting an offer checks no cooldown of its own: so long as no offer is accepted at
      a time before it was made. */
  lemma ChangesAreSpaced(rs: seq<Request>, p: Pair, i: nat, j: nat)
    requires Orderly(rs) && Timely(rs)
    requires i < j < |rs| && Changes(rs, p, i) && Changes(rs, p, j)
    ensures rs[i].now + COOLDOWN_BETWEEN_CHANGES <= rs[j].now
  {
    hide Ledger.After, Ledger.Verdict, Ledger.WellFormed, InTime;
    CoolingLasts(rs, p, i, j);
    AlwaysWellFormed(rs, j);
    CoolingStep(State(rs, j), rs[j].op, rs[j].now, p, rs[i].now);
  }

  /** In particular under a clock that never runs backwards. */
  lemma ForwardClocksAreTimely(rs: seq<Request>)
    requires Monotone(rs)
    ensures Timely(rs)
  {
    forall i | 0 <= i < |rs|
      ensures InTime(State(rs, i), rs[i].op, rs[i].now)
    {
      if rs[i].op.Accept? && State(rs, i).Verdict(rs[i].op, rs[i].now) == Done {
        RecordsAreOfThePast(rs, i, SortedPair(rs[i].op.accepter, rs[i].op.other));
      }
    }
  }

  ghost predicate Spaced(rs: seq<Request>) {
    forall p, i, j {:trigger Changes(rs, p, i), Changes(rs, p, j)} |
      0 <= i < j < |rs| && Changes(rs, p, i) && Changes(rs, p, j) :: rs[i].now + COOLDOWN_BETWEEN_CHANGES <= rs[j].now
  }

  /** The run ends with the acceptance, at time `now`, of an offer made at time `made`; all earlier ones
      were in time. */
  ghost predicate EndsAccepting(rs: seq<Request>, made: int, now: int) {
    var n := |rs| - 1;
    && n >= 0 && Orderly(rs) && Timely(rs[..n])
    && rs[n].op.Accept? && rs[n].now == now && State(rs, n).Verdict(rs[n].op, now) == Done
    && State(rs, n).treaties[SortedPair(rs[n].op.accepter, rs[n].op.other)].changedAt == made
  }

  lemma {:induction false} StateOfPrefix(rs: seq<Request>, m: nat, n: nat)
    requires n <= m <= |rs|
    ensures State(rs[..m], n) == State(rs, n)
  {
    if n == 0 {
    } else {
      StateOfPrefix(rs, m, n - 1);
      assert rs[..m][n - 1] == rs[n - 1];
    }
  }

  /** Peace is signed a cooldown before `made`, alliance is offered at `made`, as the cooldown demands,
      and the acceptance carries an earlier time. */
  lemma BackwardClockBreaksSpacing(made: int, now: int) returns (rs: seq<Request>)
    requires now < made
    ensures EndsAccepting(rs, made, now) && !Spaced(rs)
  {
    var a, b := "a", "b";
    var p, start := SortedPair(a, b), made - COOLDOWN_BETWEEN_CHANGES;
    SortedPairSymmetric(a, b);
    rs := [Request(Propose(a, b, PeaceOffer), start), Request(Accept(b, a, PeaceOffer), start),
           Request(Propose(a, b, AllianceOffer), made), Request(Accept(b, a, AllianceOffer), now)];
    assert State(rs, 1) == State(rs, 0).After(rs[0].op, rs[0].now);
    assert State(rs, 2) == State(rs, 1).After(rs[1].op, rs[1].now);
    assert State(rs, 3) == State(rs, 2).After(rs[2].op, rs[2].now);
    assert State(rs, 4) == State(rs, 3).After(rs[3].op, rs[3].now);
    forall i | 0 <= i < 3
      ensures InTime(State(rs[..3], i), rs[..3][i].op, rs[..3][i].now)
    {
      StateOfPrefix(rs, 3, i);
    }
    assert Changes(rs, p, 1) && Changes(rs, p, 3);
  }

  /** Over runs that end with the acceptance of an offer, all earlier ones having been accepted in time,
      changes are always spaced: if and only if that acceptance is in time as well. */
  lemma SpacingNeedsTimeliness(made: int, now: int)
    ensures (forall rs | EndsAccepting(rs, made, now) :: Spaced(rs)) <==> made <= now
  {
    hide Spaced;
    if made <= now {
      forall rs | EndsAccepting(rs, made, now)
        ensures Spaced(rs)
      {
        TimelyToTheEnd(rs, made, now);
        TimelyRunsAreSpaced(rs);
      }
    } else {
      var rs := BackwardClockBreaksSpacing(made, now);
    }
  }

  lemma TimelyToTheEnd(rs: seq<Request>, made: int, now: int)
    requires EndsAccepting(rs, made, now) && made <= now
    ensures Timely(rs)
  {
    var n := |rs| - 1;
    forall i | 0 <= i < |rs|
      ensures InTime(State(rs, i), rs[i].op, rs[i].now)
    {
      StateOfPrefix(rs, n, if i < n then i else n);
      assert i < n ==> rs[..n][i] == rs[i];
    }
  }

  lemma TimelyRunsAreSpaced(rs: seq<Request>)
    requires Orderly(rs) && Timely(rs)
    ensures Spaced(rs)
  {
    hide Timely, Orderly;
    forall p, i, j | 0 <= i < j < |rs| && Changes(rs, p, i) && Changes(rs, p, j)
      ensures rs[i].now + COOLDOWN_BETWEEN_CHANGES <= rs[j].now
    {
      ChangesAreSpaced(rs, p, i, j);
    }
  }

  /** Request i is the offer now open on the pair, and the record has not moved since. */
  ghost predicate OpenSince(rs: seq<Request>, p: Pair, n: nat, i: nat)
    requires n <= |rs| && i < n
  {
    && p in State(rs, n).treaties
    && var t := State(rs, n).treaties[p];
    && rs[i].op.Propose? && rs[i].op.offer == t.pending && rs[i].op.from == t.pendingFrom
    && SortedPair(rs[i].op.from, rs[i].op.target) == p
    && State(rs, i).Verdict(rs[i].op, rs[i].now) == Done
    && forall m | i < m <= n :: p in State(rs, m).treaties && State(rs, m).treaties[p] == t
  }

  /** op is the offer that the treaty shows. */
  ghost predicate Offers(l: Ledger, op: Op, now: int, p: Pair, t: Treaty) {
    && op.Propose? && l.Verdict(op, now) == Done && SortedPair(op.from, op.target) == p
    && op.offer == t.pending && op.from == t.pendingFrom
  }

  /** An open offer is there already, or is made by the request. */
  lemma OfferComesFromSomewhere(l: Ledger, op: Op, now: int, p: Pair)
    requires l.WellFormed() && Sensible(op)
    requires p in l.After(op, now).treaties && l.After(op, now).treaties[p].pending != NoOffer
    ensures Offers(l, op, now, p, l.After(op, now).treaties[p])
         || (p in l.treaties && l.treaties[p] == l.After(op, now).treaties[p])
  {
  }

  /** Every open offer was made by a request that nothing has overtaken. */
  lemma {:induction false} OffersHaveAuthors(rs: seq<Request>, p: Pair, n: nat) returns (i: nat)
    requires Orderly(rs) && n <= |rs|
    requires p in State(rs, n).treaties && State(rs, n).treaties[p].pending != NoOffer
    ensures i < n && OpenSince(rs, p, n, i)
  {
    hide Ledger.After, Ledger.Verdict, Ledger.WellFormed;
    var l, r := State(rs, n - 1), rs[n - 1];
    AlwaysWellFormed(rs, n - 1);
    OfferComesFromSomewhere(l, r.op, r.now, p);
    if Offers(l, r.op, r.now, p, State(rs, n).treaties[p]) {
      i := n - 1;
    } else {
      i := OffersHaveAuthors(rs, p, n - 1);
    }
  }

  /** A pair reaches peace or alliance only when one side accepts an offer that the other side
      made and that no transition of the pair has overtaken. */
  lemma ConsentIsMutual(rs: seq<Request>, p: Pair, j: nat) returns (i: nat)
    requires Orderly(rs) && j < |rs| && Changes(rs, p, j) && State(rs, j + 1).StanceOf(p) != War
    ensures i < j && OpenSince(rs, p, j, i)
    ensures rs[j].op.Accept? && rs[j].op.want == rs[i].op.offer
    ensures rs[j].op.other == rs[i].op.from && rs[j].op.accepter == rs[i].op.target != rs[i].op.from
    ensures State(rs, j + 1).StanceOf(p) == RequestedStance(rs[i].op.offer)
  {
    i := OffersHaveAuthors(rs, p, j);
    SortedPairSymmetric(rs[i].op.from, rs[i].op.target);
  }
}
