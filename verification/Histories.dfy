/** A match at single moments, and what leads from one to the next: the meaning of every event. */
module Histories {
  import opened Clock
  import opened StringOrder
  import opened Maps
  import opened Diplomacy
  import opened Coalitions
  import opened Timelines
  import opened Workloads
  import opened Units
  import opened Economy
  import opened MatchState
  import opened Agendas
  import opened Perils
  import opened Maneuvers
  import opened Revenues
  import opened Chronicles

  // ---------- victory ----------

  /** Whether a match is still on, and if not, who has won it. */
  datatype Standing = Standing(active: bool, winnerSlot: string, winnerCoal: seq<string>)

  /** There is a capital owner, and all of them are of one coalition. */
  ghost predicate Decided(l: Ledger, all: set<string>, owners: set<string>) {
    owners != {} && OneCoalition(l, all, owners)
  }

  /** The victory of the owners: their common coalition, and the sorted list of them all. */
  ghost predicate Wins(l: Ledger, all: set<string>, owners: set<string>, coalID: string, winners: seq<string>) {
    Sorted(winners) && Elements(winners) == owners && forall s | s in owners :: CoalId(l, all, s) == coalID
  }

  /** The last report is of the end of the match, and its cleanup is scheduled. */
  ghost predicate Announced(pending: set<Event>, log: seq<AppliedEvent>, coalID: string, at: int) {
    && log != [] && log[|log| - 1] == AppliedEvent(MatchEnded, at, |log|, "", "", coalID)
    && exists e :: e in pending && e.kind == MatchCleanup && e.at == at + CLEANUP_DELAY
  }

  /** A match that was active is over exactly if the owners of capitals are of one coalition; the
      winners are then just they, and that is announced.  Otherwise nothing changes. */
  ghost predicate Judged(l: Ledger, all: set<string>, provinces: ProvinceTable, before: Standing, after: Standing,
                         pending: set<Event>, log: seq<AppliedEvent>, at: int)
  {
    if before.active && Decided(l, all, CapitalOwners(provinces)) then
      && !after.active && Wins(l, all, CapitalOwners(provinces), after.winnerSlot, after.winnerCoal)
      && Announced(pending, log, after.winnerSlot, at)
    else after == before
  }

  // ---------- moments ----------

  /** A whole match at one moment. */
  datatype Snapshot = Snapshot(a: Agenda, ledger: Ledger, banks: map<string, Resources>, buildings: seq<Building>,
      winnerSlot: string, winnerCoal: seq<string>)
  {
    ghost function Verdict(): Standing {
      Standing(a.active, winnerSlot, winnerCoal)
    }

    /** e has been taken off the queue. */
    ghost function Without(e: Event): Snapshot {
      this.(a := a.(pending := a.pending - {e}))
    }

    /** The clock has advanced. */
    ghost function At(now: int): Snapshot {
      this.(a := a.(clock := now))
    }
  }

  /** Whoever owns the province in which an order was placed may have changed. */
  ghost predicate StillHolds(provinces: ProvinceTable, order: Order) {
    OwnerOf(provinces, order.province) == order.owner
  }

  // ---------- what each event means; e has just been taken off the queue of s ----------

  /** The arrival that a unit was waiting for: its leg has ended, with all that follows. */
  ghost predicate LegEnded(graph: Graph, s: Snapshot, e: Event, t: Snapshot)
    requires e.unitID in s.a.units
  {
    var u, all := s.a.units[e.unitID], s.a.players;
    && LegDone(s.ledger, graph, all, s.a.units, s.a.provinces, t.a.units, t.a.provinces, u, e.at)
    && Judged(s.ledger, all, t.a.provinces, s.Verdict(), t.Verdict(), t.a.pending, t.a.log, e.at)
    && Told(s.a.log, t.a.log, e.at) && Reports(t.a.log, |s.a.log|, u, e.at) && Unmoved(s.a.units, t.a.units, e.at)
    && Posted(t.a.units, s.a.pending, t.a.pending, 2, e.at + MILLISECOND)
    && t == s.(a := s.a.(units := t.a.units, provinces := t.a.provinces, pending := t.a.pending, active := t.a.active,
                         log := t.a.log, seqNo := t.a.seqNo, busy := {}),
               winnerSlot := t.winnerSlot, winnerCoal := t.winnerCoal)
  }

  /** Whose arrival is being handled does not matter. */
  lemma HandlingOneArrival(graph: Graph, s: Snapshot, busy: set<string>, e: Event, t: Snapshot)
    requires e.unitID in s.a.units && LegEnded(graph, s.(a := s.a.(busy := busy)), e, t)
    ensures LegEnded(graph, s, e, t)
  {
    hide LegDone, Judged, Told, Reports, Unmoved, Posted;
  }

  /** A look at who has won. */
  ghost predicate VictoryChecked(s: Snapshot, e: Event, t: Snapshot) {
    && Judged(s.ledger, s.a.players, s.a.provinces, s.Verdict(), t.Verdict(), t.a.pending, t.a.log, e.at)
    && Told(s.a.log, t.a.log, e.at) && (t.a.active == s.a.active ==> t.a.log == s.a.log)
    && Posted(s.a.units, s.a.pending, t.a.pending, 1, e.at + MILLISECOND)
    && t == s.(a := s.a.(pending := t.a.pending, active := t.a.active, log := t.a.log, seqNo := t.a.seqNo),
               winnerSlot := t.winnerSlot, winnerCoal := t.winnerCoal)
  }

  ghost predicate NextPulse(before: set<Event>, after: set<Event>, next: Event, at: int) {
    && after == before + {next} && next !in before && next.kind == MacroPulse && next.unitID == ""
    && next.at == at + MACRO_PULSE_INTERVAL
  }

  /** The economic pulse: everyone is paid, and the next pulse is scheduled. */
  ghost predicate PulsePaid(s: Snapshot, e: Event, t: Snapshot) {
    && Paid(s.banks, t.banks, s.a.provinces, s.buildings, {}) && Pulsed(s.a.log, t.a.log, e.at, s.a.players)
    && (exists next :: NextPulse(s.a.pending, t.a.pending, next, e.at))
    && t == s.(a := s.a.(pending := t.a.pending, log := t.a.log, seqNo := t.a.seqNo), banks := t.banks)
  }

  /** A recruit order is done: it has become a unit, which is reported, or half its price is given back. */
  ghost predicate RecruitSettled(s: Snapshot, e: Event, t: Snapshot, order: Order, id: string) {
    && order.province in s.a.recruits && s.a.recruits[order.province] == order && order.id == e.unitID
    && if StillHolds(s.a.provinces, order) then
         && BecameUnit(order, s.a.provinces, s.a.units, t.a.units, id, e.at) && id !in s.a.ids
         && t == s.(a := s.a.(recruits := s.a.recruits - {order.province}, units := t.a.units, ids := s.a.ids + {id},
                              delivered := s.a.delivered + {order.id}, seqNo := s.a.seqNo + 1,
                              log := s.a.log + [AppliedEvent(UnitRecruited, e.at, s.a.seqNo + 1, id, order.province,
                                  order.owner)]))
       else
         && GaveBackHalf(order, s.banks, t.banks)
         && t == s.(a := s.a.(recruits := s.a.recruits - {order.province}, refunded := s.a.refunded + {order.id}),
                    banks := t.banks)
  }

  /** A construction order is done: the building stands, which is reported, or is lost. */
  ghost predicate BuildSettled(s: Snapshot, e: Event, t: Snapshot, order: Order) {
    && order.province in s.a.builds && s.a.builds[order.province] == order && order.id == e.unitID
    && if StillHolds(s.a.provinces, order) then
         t == s.(a := s.a.(builds := s.a.builds - {order.province}, seqNo := s.a.seqNo + 1,
                           log := s.a.log + [AppliedEvent(BuildingConstructed, e.at, s.a.seqNo + 1, "",
                               order.province, order.owner)]),
                 buildings := s.buildings + [Building(order.what, order.province, order.owner)])
       else t == s.(a := s.a.(builds := s.a.builds - {order.province}))
  }

  /** The match is cleaned up. */
  ghost predicate CleanedUp(s: Snapshot, e: Event, t: Snapshot) {
    t == s.(a := s.a.(cleanupDone := true, seqNo := s.a.seqNo + 1,
                      log := s.a.log + [AppliedEvent(MatchCleaned, e.at, s.a.seqNo + 1, "", "", "")]))
  }

  /** t is what handling e, which has just been taken off the queue, makes of s. */
  ghost predicate Handles(graph: Graph, s: Snapshot, e: Event, t: Snapshot) {
    && Attainable(t.a) && t.a.busy == {}
    && match e.kind
       case Arrival => if Current(s.a.units, e) then LegEnded(graph, s, e, t) else t == s
       case MacroPulse => PulsePaid(s, e, t)
       case RecruitComplete => exists order, id :: RecruitSettled(s, e, t, order, id)
       case ConstructComplete => exists order :: BuildSettled(s, e, t, order)
       case VictoryCheck => VictoryChecked(s, e, t)
       case MatchCleanup => CleanedUp(s, e, t)
       case CombatStart => t == s
       case CombatTick => t == s
  }

  /** A match over a given map begins: everyone with the same stockpile, nothing ordered or reported, nobody
      allied, and the first economic pulse an interval away. */
  ghost predicate Opens(s: Snapshot, players: set<string>, provinces: ProvinceTable, units: UnitTable, now: int) {
    && s == Snapshot(Agenda(players, provinces, units, s.a.pending, now, map[], map[], true, false, [], 0,
                            units.Keys + {""}, {}, {}, {}, {}, {}),
                     EMPTY, map p | p in players :: STARTING_RESOURCES, [], "", [])
    && exists e :: NextPulse({}, s.a.pending, e, now)
  }

  lemma PulseIsHandled(graph: Graph, s: Snapshot, e: Event, t: Snapshot)
    requires e.kind == MacroPulse && PulsePaid(s, e, t) && s.a.busy == {} && Attainable(t.a)
    ensures Handles(graph, s, e, t)
  {
    hide Attainable, Paid, Pulsed, NextPulse;
  }

  lemma RecruitIsHandled(graph: Graph, s: Snapshot, e: Event, t: Snapshot, order: Order, id: string)
    requires e.kind == RecruitComplete && RecruitSettled(s, e, t, order, id) && s.a.busy == {} && Attainable(t.a)
    ensures Handles(graph, s, e, t)
  {
    hide Attainable, BecameUnit, GaveBackHalf;
  }

  lemma BuildIsHandled(graph: Graph, s: Snapshot, e: Event, t: Snapshot, order: Order)
    requires e.kind == ConstructComplete && BuildSettled(s, e, t, order) && s.a.busy == {} && Attainable(t.a)
    ensures Handles(graph, s, e, t)
  {
    hide Attainable;
  }

  lemma EndingIsHandled(graph: Graph, s: Snapshot, e: Event, t: Snapshot)
    requires e.kind in {VictoryCheck, MatchCleanup, CombatStart, CombatTick} && s.a.busy == {} && Attainable(t.a)
    requires if e.kind == VictoryCheck then VictoryChecked(s, e, t)
             else if e.kind == MatchCleanup then CleanedUp(s, e, t)
             else t == s
    ensures Handles(graph, s, e, t)
  {
    hide Attainable, Judged, Told, Posted;
  }

  /** e is the earliest event of s and due, and t is what handling it makes of s. */
  ghost predicate HandlesNext(graph: Graph, s: Snapshot, e: Event, t: Snapshot, now: int) {
    e in s.a.pending && NothingBefore(s.a.pending, e.at) && e.at <= now && Handles(graph, s.Without(e), e, t)
  }

  /** e is the earliest event of s, and it is the arrival of a unit whose leg ends in a perilous
      garrison. */
  ghost predicate Hangs(graph: Graph, s: Snapshot, e: Event) {
    && e in s.a.pending && NothingBefore(s.a.pending, e.at) && e.kind == Arrival && Current(s.a.units, e)
    && EndsInPeril(s.ledger, graph, s.a.players, s.a.units, s.a.provinces, s.a.units[e.unitID], e.at)
  }

  /** Without alliances nothing hangs. */
  lemma WithoutAlliancesNothingHangs(graph: Graph, s: Snapshot, e: Event)
    requires NoAlliances(s.ledger, s.a.players)
    ensures !Hangs(graph, s, e)
  {
    if Hangs(graph, s, e) {
      var u := s.a.units[e.unitID];
      WithoutAlliancesNoPerilAt(s.ledger, s.a.players, s.a.units[u.id := Stopped(EndLeg(u, e.at))],
          u.CurrentLeg().toProv, e.at);
    }
  }

  // ---------- one event after the other ----------

  /** The moments that a match goes through as its events are handled: later[i] is what handling events[i]
      makes of the moment before. */
  datatype Course = Course(first: Snapshot, later: seq<Snapshot>, events: seq<Event>) {
    ghost function Moment(i: nat): Snapshot
      requires i <= |later|
    {
      if i == 0 then first else later[i - 1]
    }

    ghost function Last(): Snapshot {
      Moment(|later|)
    }

    ghost predicate Ok(graph: Graph, now: int) {
      && |later| == |events|
      && forall i {:trigger events[i]} | 0 <= i < |events| :: HandlesNext(graph, Moment(i), events[i], later[i], now)
    }

    ghost function Then(e: Event, s: Snapshot): Course {
      Course(first, later + [s], events + [e])
    }

    /** All but the last event. */
    ghost function Before(): Course
      requires events != [] && |later| == |events|
    {
      Course(first, later[..|events| - 1], events[..|events| - 1])
    }
  }

  lemma CourseGoesOn(graph: Graph, c: Course, e: Event, s: Snapshot, now: int)
    requires c.Ok(graph, now) && HandlesNext(graph, c.Last(), e, s, now)
    ensures c.Then(e, s).Ok(graph, now) && c.Then(e, s).Last() == s
  {
    hide HandlesNext;
    var d := c.Then(e, s);
    forall i | 0 <= i < |d.events|
      ensures HandlesNext(graph, d.Moment(i), d.events[i], d.later[i], now)
    {
      assert d.Moment(i) == c.Moment(i);
      assert i < |c.events| ==> d.events[i] == c.events[i];
    }
  }

  // ---------- consequences ----------

  /** Reports of time `at`, at most two events, all later, and nobody anywhere else. */
  ghost predicate Tidy(s: Snapshot, t: Snapshot, at: int) {
    && Told(s.a.log, t.a.log, at) && Added(s.a.pending, t.a.pending, 2, at + MILLISECOND)
    && Steady(s.a.units, t.a.units, at)
  }

  /** What no event changes. */
  ghost predicate Keeps(s: Snapshot, t: Snapshot) {
    && t.ledger == s.ledger && t.a.clock == s.a.clock && t.a.players == s.a.players && t.a.paid == s.a.paid
    && t.a.stranded == s.a.stranded && s.a.ids <= t.a.ids
  }

  lemma PulseIsOrderly(s: Snapshot, e: Event, t: Snapshot)
    requires PulsePaid(s, e, t)
    ensures Tidy(s, t, e.at) && Keeps(s, t)
  {
    hide Paid, Pulsed, Steady, Added, Told;
    NothingJumped(s.a.units, e.at);
    var next :| NextPulse(s.a.pending, t.a.pending, next, e.at);
    AddedOne(s.a.pending, next, e.at + MILLISECOND);
    AddedMore(s.a.pending, t.a.pending, 1, 2, e.at + MILLISECOND);
    PulsedIsTold(s.a.log, t.a.log, e.at, s.a.players);
  }

  lemma RecruitIsOrderly(s: Snapshot, e: Event, t: Snapshot, order: Order, id: string)
    requires RecruitSettled(s, e, t, order, id)
    ensures Tidy(s, t, e.at) && Keeps(s, t)
  {
    hide BecameUnit, GaveBackHalf, Steady, Added, Told, StillHolds;
    AddedNothing(s.a.pending, 2, e.at + MILLISECOND);
    ToldNothing(s.a.log, e.at);
    ToldOne(s.a.log, AppliedEvent(UnitRecruited, e.at, s.a.seqNo + 1, id, order.province, order.owner));
    RecruitingIsSteady(order, s.a.provinces, s.a.units, t.a.units, id, e.at);
  }

  lemma BuildIsOrderly(s: Snapshot, e: Event, t: Snapshot, order: Order)
    requires BuildSettled(s, e, t, order)
    ensures Tidy(s, t, e.at) && Keeps(s, t)
  {
    hide Steady, Added, Told, StillHolds;
    NothingJumped(s.a.units, e.at);
    AddedNothing(s.a.pending, 2, e.at + MILLISECOND);
    ToldNothing(s.a.log, e.at);
    ToldOne(s.a.log, AppliedEvent(BuildingConstructed, e.at, s.a.seqNo + 1, "", order.province, order.owner));
  }

  lemma LegEndIsOrderly(graph: Graph, s: Snapshot, e: Event, t: Snapshot)
    requires e.unitID in s.a.units && LegEnded(graph, s, e, t)
    ensures Tidy(s, t, e.at) && Keeps(s, t)
  {
    hide LegDone, Judged, Reports, Steady, Unmoved, Added, Told;
    UnmovedIsSteady(s.a.units, t.a.units, e.at);
  }

  lemma CheckIsOrderly(s: Snapshot, e: Event, t: Snapshot)
    requires VictoryChecked(s, e, t)
    ensures Tidy(s, t, e.at) && Keeps(s, t)
  {
    hide Judged, Steady, Added, Told;
    NothingJumped(s.a.units, e.at);
    AddedMore(s.a.pending, t.a.pending, 1, 2, e.at + MILLISECOND);
  }

  lemma CleanupIsOrderly(s: Snapshot, e: Event, t: Snapshot)
    requires CleanedUp(s, e, t)
    ensures Tidy(s, t, e.at) && Keeps(s, t)
  {
    hide Steady, Added, Told;
    NothingJumped(s.a.units, e.at);
    AddedNothing(s.a.pending, 2, e.at + MILLISECOND);
    ToldOne(s.a.log, AppliedEvent(MatchCleaned, e.at, s.a.seqNo + 1, "", "", ""));
  }

  lemma NothingIsOrderly(s: Snapshot, at: int)
    ensures Tidy(s, s, at) && Keeps(s, s)
  {
    NothingJumped(s.a.units, at);
    AddedNothing(s.a.pending, 2, at + MILLISECOND);
    ToldNothing(s.a.log, at);
  }

  /** Whatever the event, handling it is orderly. */
  lemma HandlingIsOrderly(graph: Graph, s: Snapshot, e: Event, t: Snapshot)
    requires Handles(graph, s, e, t)
    ensures Tidy(s, t, e.at) && Keeps(s, t) && t.a.busy == {}
  {
    hide Tidy, Keeps, PulsePaid, RecruitSettled, BuildSettled, LegEnded, VictoryChecked, CleanedUp, Attainable;
    match e.kind {
      case MacroPulse =>
        PulseIsOrderly(s, e, t);
      case RecruitComplete =>
        var order, id :| RecruitSettled(s, e, t, order, id);
        RecruitIsOrderly(s, e, t, order, id);
      case ConstructComplete =>
        var order :| BuildSettled(s, e, t, order);
        BuildIsOrderly(s, e, t, order);
      case Arrival =>
        if Current(s.a.units, e) {
          LegEndIsOrderly(graph, s, e, t);
        } else {
          NothingIsOrderly(s, e.at);
        }
      case VictoryCheck => CheckIsOrderly(s, e, t);
      case MatchCleanup => CleanupIsOrderly(s, e, t);
      case _ => NothingIsOrderly(s, e.at);
    }
  }

  lemma NextIsOrderly(graph: Graph, s: Snapshot, e: Event, t: Snapshot, now: int)
    requires HandlesNext(graph, s, e, t, now)
    ensures Told(s.a.log, t.a.log, e.at) && NothingBefore(t.a.pending, e.at) && e.at <= now
    ensures Work(t.a.pending, now) < Work(s.a.pending, now)
    ensures Steady(s.a.units, t.a.units, e.at) && Keeps(s, t) && Attainable(t.a) && t.a.busy == {}
  {
    hide Attainable, Told, Added, Work, Steady;
    HandlingIsOrderly(graph, s.Without(e), e, t);
    LaterThanLeast(s.a.pending, e, t.a.pending);
    HandlingLightens(s.a.pending, e, t.a.pending, now);
  }

  lemma CourseBefore(graph: Graph, c: Course, now: int)
    requires c.Ok(graph, now) && c.events != []
    ensures c.Before().Ok(graph, now)
    ensures HandlesNext(graph, c.Before().Last(), c.events[|c.events| - 1], c.Last(), now)
  {
    hide HandlesNext;
    var b, n := c.Before(), |c.events| - 1;
    forall i | 0 <= i < |b.events|
      ensures HandlesNext(graph, b.Moment(i), b.events[i], b.later[i], now)
    {
      assert b.Moment(i) == c.Moment(i) && b.events[i] == c.events[i];
    }
    assert HandlesNext(graph, c.Moment(n), c.events[n], c.later[n], now);
  }

  /** How far a course has come: what it has handled is in order of time, and nothing left is earlier. */
  ghost predicate UpTo(c: Course, last: int) {
    && (forall i, j | 0 <= i <= j < |c.events| :: c.events[i].at <= c.events[j].at <= last)
    && Chronicled(c.first.a.log, c.Last().a.log, last)
    && (c.events != [] ==> NothingBefore(c.Last().a.pending, last))
  }

  lemma OrderedOneMore(events: seq<Event>, last: int)
    requires events != [] && last <= events[|events| - 1].at
    requires var b := events[..|events| - 1]; forall i, j | 0 <= i <= j < |b| :: b[i].at <= b[j].at <= last
    ensures forall i, j | 0 <= i <= j < |events| :: events[i].at <= events[j].at <= events[|events| - 1].at
  {
    var n := |events| - 1;
    var b := events[..n];
    forall i, j | 0 <= i <= j < |events|
      ensures events[i].at <= events[j].at <= events[n].at
    {
      assert i < n ==> b[i] == events[i] && b[i].at <= b[i].at <= last;
      assert j < n ==> b[j] == events[j] && b[i].at <= b[j].at <= last;
    }
  }

  lemma UpToOneMore(graph: Graph, c: Course, last: int, now: int)
    requires c.Ok(graph, now) && c.events != [] && UpTo(c.Before(), last)
    requires c.Before().events == [] ==> last <= c.events[|c.events| - 1].at
    ensures UpTo(c, c.events[|c.events| - 1].at)
  {
    hide Chronicled, Handles, Keeps, Steady, Told, Work;
    var b, e := c.Before(), c.events[|c.events| - 1];
    CourseBefore(graph, c, now);
    NextIsOrderly(graph, b.Last(), e, c.Last(), now);
    assert last <= e.at;
    ChronicleGoesOn(c.first.a.log, b.Last().a.log, c.Last().a.log, last, e.at);
    OrderedOneMore(c.events, last);
  }

  /** Events are handled and reported in order of time, none of them from after `now`, and there are no
      more of them than the workload at the start. */
  lemma {:induction false} CoursesAreInOrder(graph: Graph, c: Course, now: int) returns (last: int)
    requires c.Ok(graph, now)
    ensures last <= now && UpTo(c, last) && (c.events != [] ==> last == c.events[|c.events| - 1].at)
    ensures |c.events| + Work(c.Last().a.pending, now) <= Work(c.first.a.pending, now)
    decreases |c.events|
  {
    hide HandlesNext, UpTo, Work;
    if c.events == [] {
      last := now;
      CourseOpens(c, now);
    } else {
      var b := c.Before();
      CourseBefore(graph, c, now);
      last := c.events[|c.events| - 1].at;
      var before := CoursesAreInOrder(graph, b, now);
      NextIsOrderly(graph, b.Last(), c.events[|c.events| - 1], c.Last(), now);
      if b.events == [] {
        CourseOpens(b, last);
        before := last;
      }
      UpToOneMore(graph, c, before, now);
    }
  }

  /** Up to where a course hangs, everything has been reported in order. */
  lemma HungInOrder(graph: Graph, c: Course, e: Event, now: int)
    requires c.Ok(graph, now) && Hangs(graph, c.Last(), e)
    ensures Chronicled(c.first.a.log, c.Last().a.log, e.at)
  {
    hide HandlesNext, Chronicled;
    var last := CoursesAreInOrder(graph, c, now);
    if c.events == [] {
      ChronicleOpens(c.first.a.log, e.at);
    } else {
      ChronicleStretches(c.first.a.log, c.Last().a.log, last, e.at);
    }
  }

  lemma CourseOpens(c: Course, last: int)
    requires c.events == [] && c.later == []
    ensures UpTo(c, last) && c.Last() == c.first
  {
    ChronicleOpens(c.first.a.log, last);
  }

  /** No event touches the ledger, the clock or the slots, or strands a unit; and a course that starts in an
      attainable moment stays among them. */
  lemma {:induction false} CoursesKeep(graph: Graph, c: Course, now: int)
    requires c.Ok(graph, now)
    ensures c.Last().ledger == c.first.ledger && c.Last().a.clock == c.first.a.clock
    ensures c.Last().a.players == c.first.a.players && c.Last().a.stranded == c.first.a.stranded
    ensures c.first.a.log <= c.Last().a.log
    ensures Attainable(c.first.a) ==> Attainable(c.Last().a)
    ensures c.first.a.busy == {} ==> c.Last().a.busy == {}
    decreases |c.events|
  {
    hide HandlesNext, Attainable;
    if c.events == [] {
    } else {
      CourseBefore(graph, c, now);
      CoursesKeep(graph, c.Before(), now);
      NextIsOrderly(graph, c.Before().Last(), c.events[|c.events| - 1], c.Last(), now);
    }
  }
}
