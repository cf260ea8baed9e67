/** The end of a match: once decided, it stays decided, and its cleanup comes five minutes later, over every
    run. */
module Verdicts {
  import opened Clock
  import opened Maps
  import opened Timelines
  import opened Workloads
  import opened Units
  import opened MatchState
  import opened Agendas
  import opened Maneuvers
  import opened Revenues
  import opened Chronicles
  import opened Histories
  import opened Commands
  import opened Turns

  /** The end of the match was reported at this time. */
  ghost predicate EndsAt(log: seq<AppliedEvent>, at: int) {
    exists i :: 0 <= i < |log| && log[i].kind == MatchEnded && log[i].at == at
  }

  /** Every cleanup, scheduled or reported, is five minutes after the end of the match. */
  ghost predicate CleansInTime(a: Agenda) {
    && (forall e | e in a.pending && e.kind == MatchCleanup :: EndsAt(a.log, e.at - 5 * MINUTE))
    && forall i | 0 <= i < |a.log| && a.log[i].kind == MatchCleaned :: EndsAt(a.log, a.log[i].at - 5 * MINUTE)
  }

  lemma EndsAreKept(before: seq<AppliedEvent>, after: seq<AppliedEvent>, at: int)
    requires before <= after && EndsAt(before, at)
    ensures EndsAt(after, at)
  {
    var i :| 0 <= i < |before| && before[i].kind == MatchEnded && before[i].at == at;
    assert after[i] == before[i];
  }

  /** If as many reports of a kind are there as before, no new one is of that kind. */
  lemma {:induction false} NoneIsNew(before: seq<AppliedEvent>, after: seq<AppliedEvent>, kind: AppliedKind, i: nat)
    requires before <= after && Count(after, kind) <= Count(before, kind) && |before| <= i < |after|
    ensures after[i].kind != kind
    decreases |after|
  {
    var n := |after| - 1;
    CountsGrow(before, after[..n], kind);
    if i < n {
      NoneIsNew(before, after[..n], kind, i);
    }
  }

  lemma {:induction false} CountsGrow(before: seq<AppliedEvent>, after: seq<AppliedEvent>, kind: AppliedKind)
    requires before <= after
    ensures Count(before, kind) <= Count(after, kind)
    decreases |after|
  {
    if |before| == |after| {
      assert before == after;
    } else {
      CountsGrow(before, after[..|after| - 1], kind);
    }
  }

  lemma OldReportsAreInTime(a: Agenda, b: Agenda)
    requires CleansInTime(a) && a.log <= b.log && Count(b.log, MatchCleaned) <= Count(a.log, MatchCleaned)
    ensures forall i | 0 <= i < |b.log| && b.log[i].kind == MatchCleaned :: EndsAt(b.log, b.log[i].at - 5 * MINUTE)
  {
    forall i | 0 <= i < |b.log| && b.log[i].kind == MatchCleaned
      ensures EndsAt(b.log, b.log[i].at - 5 * MINUTE)
    {
      if i < |a.log| {
        assert b.log[i] == a.log[i];
        EndsAreKept(a.log, b.log, b.log[i].at - 5 * MINUTE);
      } else {
        NoneIsNew(a.log, b.log, MatchCleaned, i);
      }
    }
  }

  /** Whatever happens that neither ends the match nor cleans it up. */
  lemma StillInTime(a: Agenda, b: Agenda)
    requires a.Ok() && b.Ok() && CleansInTime(a) && a.log <= b.log
    requires b.active == a.active && b.cleanupDone == a.cleanupDone
    requires forall e | e in a.pending && e.kind == MatchCleanup :: e in b.pending
    ensures CleansInTime(b)
  {
    hide Count, EndsAt;
    OldReportsAreInTime(a, b);
    forall e | e in b.pending && e.kind == MatchCleanup
      ensures EndsAt(b.log, e.at - 5 * MINUTE)
    {
      var o :| OnlyCleanup(a.pending, o);
      assert o in b.pending;
      EndsAreKept(a.log, b.log, e.at - 5 * MINUTE);
    }
  }

  /** The match ends. */
  lemma EndedInTime(a: Agenda, b: Agenda, coalID: string, at: int)
    requires a.Ok() && b.Ok() && CleansInTime(a) && a.log <= b.log && b.cleanupDone == a.cleanupDone
    requires !b.active && Announced(b.pending, b.log, coalID, at)
    ensures CleansInTime(b)
  {
    hide Count;
    OldReportsAreInTime(a, b);
    assert b.log[|b.log| - 1].kind == MatchEnded && b.log[|b.log| - 1].at == at;
    assert EndsAt(b.log, at);
  }

  /** A match is judged. */
  lemma JudgedInTime(s: Snapshot, t: Snapshot, at: int)
    requires s.a.Ok() && t.a.Ok() && CleansInTime(s.a) && s.a.log <= t.a.log && t.a.cleanupDone == s.a.cleanupDone
    requires forall e | e in s.a.pending && e.kind == MatchCleanup :: e in t.a.pending
    requires Judged(s.ledger, s.a.players, t.a.provinces, s.Verdict(), t.Verdict(), t.a.pending, t.a.log, at)
    ensures CleansInTime(t.a) && (!s.a.active ==> t.Verdict() == s.Verdict())
  {
    hide Agenda.Ok, CleansInTime, Decided, Wins, Announced;
    if t.Verdict() == s.Verdict() {
      StillInTime(s.a, t.a);
    } else {
      EndedInTime(s.a, t.a, t.winnerSlot, at);
    }
  }

  /** The cleanup is reported when it was scheduled for. */
  lemma CleanedInTime(a: Agenda, e: Event, b: Agenda, r: AppliedEvent)
    requires CleansInTime(a) && e in a.pending && e.kind == MatchCleanup && r.at == e.at
    requires b.log == a.log + [r] && b.pending == a.pending - {e}
    ensures CleansInTime(b)
  {
    hide EndsAt;
    forall at | EndsAt(a.log, at)
      ensures EndsAt(b.log, at)
    {
      EndsAreKept(a.log, b.log, at);
    }
  }

  ghost predicate Sealed(s: Snapshot, t: Snapshot) {
    CleansInTime(t.a) && (!s.a.active ==> t.Verdict() == s.Verdict())
  }

  /** What is left of the queue once e has been handled. */
  lemma CleanupsStay(graph: Graph, s: Snapshot, e: Event, t: Snapshot)
    requires Handles(graph, s.Without(e), e, t) && e.kind != MatchCleanup
    ensures forall o | o in s.a.pending && o.kind == MatchCleanup :: o in t.a.pending
  {
    hide Attainable, Told, Steady;
    HandlingIsOrderly(graph, s.Without(e), e, t);
  }

  /** An event after which the match is judged. */
  lemma JudgesInTime(graph: Graph, s: Snapshot, e: Event, t: Snapshot)
    requires Handles(graph, s.Without(e), e, t) && s.a.Ok() && t.a.Ok() && CleansInTime(s.a) && s.a.log <= t.a.log
    requires e.kind == VictoryCheck || (e.kind == Arrival && Current(s.a.units, e))
    ensures Sealed(s, t)
  {
    hide Attainable, CleansInTime, Judged, Agenda.Ok, LegDone, Told, Posted, Unmoved, Reports;
    CleanupsStay(graph, s, e, t);
    JudgedInTime(s, t, e.at);
  }

  /** Any other one, but the cleanup. */
  lemma OthersDecideNothing(graph: Graph, s: Snapshot, e: Event, t: Snapshot)
    requires Handles(graph, s, e, t)
    requires e.kind != VictoryCheck && e.kind != MatchCleanup && !(e.kind == Arrival && Current(s.a.units, e))
    ensures t.Verdict() == s.Verdict() && t.a.cleanupDone == s.a.cleanupDone
  {
    hide Attainable, Paid, Pulsed, BecameUnit, GaveBackHalf, StillHolds, NextPulse;
    if e.kind == RecruitComplete {
      var order, id :| RecruitSettled(s, e, t, order, id);
    } else if e.kind == ConstructComplete {
      var order :| BuildSettled(s, e, t, order);
    }
  }

  lemma PassesInTime(graph: Graph, s: Snapshot, e: Event, t: Snapshot)
    requires Handles(graph, s.Without(e), e, t) && s.a.Ok() && t.a.Ok() && CleansInTime(s.a) && s.a.log <= t.a.log
    requires e.kind != VictoryCheck && e.kind != MatchCleanup && !(e.kind == Arrival && Current(s.a.units, e))
    ensures Sealed(s, t)
  {
    hide Handles, CleansInTime, Agenda.Ok;
    OthersDecideNothing(graph, s.Without(e), e, t);
    CleanupsStay(graph, s, e, t);
    StillInTime(s.a, t.a);
  }

  /** The cleanup. */
  lemma CleansUpInTime(graph: Graph, s: Snapshot, e: Event, t: Snapshot)
    requires e in s.a.pending && Handles(graph, s.Without(e), e, t) && CleansInTime(s.a) && e.kind == MatchCleanup
    ensures Sealed(s, t)
  {
    hide Attainable, CleansInTime;
    CleanedInTime(s.a, e, t.a, t.a.log[|s.a.log|]);
  }

  /** Handling an event. */
  lemma EventsSeal(graph: Graph, s: Snapshot, e: Event, t: Snapshot, now: int)
    requires HandlesNext(graph, s, e, t, now) && Attainable(s.a) && CleansInTime(s.a)
    ensures Sealed(s, t)
  {
    hide Attainable, CleansInTime, Agenda.Ok, Handles, Told, Work, Keeps, Steady;
    NextIsOrderly(graph, s, e, t, now);
    AttainableIsOk(s.a);
    AttainableIsOk(t.a);
    LogsGrow(s.a.log, t.a.log, e.at);
    if e.kind == MatchCleanup {
      CleansUpInTime(graph, s, e, t);
    } else if e.kind == VictoryCheck || (e.kind == Arrival && Current(s.a.units, e)) {
      JudgesInTime(graph, s, e, t);
    } else {
      PassesInTime(graph, s, e, t);
    }
  }

  lemma LogsGrow(before: seq<AppliedEvent>, after: seq<AppliedEvent>, at: int)
    requires Told(before, after, at)
    ensures before <= after
  {
  }

  lemma {:induction false} CoursesSeal(graph: Graph, c: Course, now: int)
    requires c.Ok(graph, now) && Attainable(c.first.a) && CleansInTime(c.first.a)
    ensures Sealed(c.first, c.Last())
    decreases |c.events|
  {
    hide HandlesNext, CleansInTime, Attainable;
    if c.events != [] {
      CourseBefore(graph, c, now);
      CoursesKeep(graph, c.Before(), now);
      CoursesSeal(graph, c.Before(), now);
      EventsSeal(graph, c.Before().Last(), c.events[|c.events| - 1], c.Last(), now);
    }
  }

  /** Serving a command. */
  lemma CommandsSeal(graph: Graph, s: Snapshot, issuer: string, c: Command, reply: Reply, t: Snapshot)
    requires Dispatched(graph, s, issuer, c, reply, t) && Attainable(s.a) && CleansInTime(s.a)
    ensures Sealed(s, t)
  {
    hide Attainable, CleansInTime, Agenda.Ok, MoveServed, OrderServed, StrandsByQueueing, RecruitVerdict,
         ConstructVerdict, DiplomaticVerdict, LedgerAfter, Posted;
    AttainableIsOk(s.a);
    AttainableIsOk(t.a);
    if s.a.active {
      ActiveMatchesAreNotCleaned(s.a);
      StillInTime(s.a, t.a);
    }
  }

  lemma ActiveMatchesAreNotCleaned(a: Agenda)
    requires a.Ok() && a.active
    ensures forall e | e in a.pending :: e.kind != MatchCleanup
  {
    hide TravelOk, Booked;
  }

  lemma TurnsSeal(graph: Graph, s: Snapshot, input: Input, turn: Turn)
    requires Taken(graph, s, input, turn) && Attainable(s.a) && s.a.busy == {} && s.a.clock <= input.now
    requires CleansInTime(s.a)
    ensures Sealed(s, turn.course.Last())
  {
    hide Attainable, CleansInTime, Dispatched, Course.Ok, Course.Last;
    Goes(s.a, Tick(input.now));
    TheClockIsNoMatter(s, input.now);
    if input.Ask? {
      CommandsSeal(graph, s.At(input.now), input.issuer, input.command, turn.reply, turn.course.first);
      DispatchingIsAttainable(graph, s.At(input.now), input.issuer, input.command, turn.reply, turn.course.first);
    }
    CoursesSeal(graph, turn.course, input.now);
  }

  lemma TheClockIsNoMatter(s: Snapshot, now: int)
    ensures CleansInTime(s.At(now).a) <==> CleansInTime(s.a)
  {
  }

  /** Over every run of a match from its opening, whatever is cleaned up is cleaned up five minutes after the end
      of the match was reported. */
  lemma {:induction false} CleanupsComeInTime(graph: Graph, s: Snapshot, inputs: seq<Input>, turns: seq<Turn>, n: nat)
    requires Runs(graph, s, inputs, turns) && n <= |turns| && Forward(inputs, s.a.clock)
    requires Attainable(s.a) && s.a.busy == {} && CleansInTime(s.a)
    ensures CleansInTime(MomentAfter(s, turns, n).a)
  {
    hide Attainable, Taken, GoesOn, CleansInTime;
    if n != 0 {
      CleanupsComeInTime(graph, s, inputs, turns, n - 1);
      RunsKeep(graph, s, inputs, turns, n - 1);
      assert inputs[n - 1].now >= s.a.clock && (n > 1 ==> inputs[n - 1 - 1].now <= inputs[n - 1].now);
      assert Taken(graph, MomentAfter(s, turns, n - 1), inputs[n - 1], turns[n - 1]);
      TurnsSeal(graph, MomentAfter(s, turns, n - 1), inputs[n - 1], turns[n - 1]);
    }
  }

  /** And once a match is over, who has won never changes. */
  lemma {:induction false} VerdictsAreFinal(graph: Graph, s: Snapshot, inputs: seq<Input>, turns: seq<Turn>, m: nat,
      n: nat)
    requires Runs(graph, s, inputs, turns) && m <= n <= |turns| && Forward(inputs, s.a.clock)
    requires Attainable(s.a) && s.a.busy == {} && CleansInTime(s.a) && !MomentAfter(s, turns, m).a.active
    ensures MomentAfter(s, turns, n).Verdict() == MomentAfter(s, turns, m).Verdict()
    decreases n
  {
    hide Attainable, Taken, GoesOn, CleansInTime;
    if m < n {
      VerdictsAreFinal(graph, s, inputs, turns, m, n - 1);
      CleanupsComeInTime(graph, s, inputs, turns, n - 1);
      RunsKeep(graph, s, inputs, turns, n - 1);
      assert inputs[n - 1].now >= s.a.clock && (n > 1 ==> inputs[n - 1 - 1].now <= inputs[n - 1].now);
      assert Taken(graph, MomentAfter(s, turns, n - 1), inputs[n - 1], turns[n - 1]);
      TurnsSeal(graph, MomentAfter(s, turns, n - 1), inputs[n - 1], turns[n - 1]);
    }
  }

  // ---------- turns ----------

  /** A refused command, and a resync, handle nothing that is due; every other turn handles all of it. */
  lemma DueEventsAreHandled(graph: Graph, s: Snapshot, input: Input, turn: Turn)
    requires Taken(graph, s, input, turn) && Finished(input, turn)
    ensures input.Resync? ==> turn.course.Last() == s.At(input.now)
    ensures input.Ask? && turn.reply != Accepted ==> turn.course.events == []
    ensures input.Clock? || (input.Ask? && turn.reply == Accepted) ==>
        forall e | e in turn.course.Last().a.pending :: input.now < e.at
  {
    hide Dispatched, HandlesNext;
  }

  /** Once a match is over, no command is accepted, whatever it says and whoever sends it, or changes anything. */
  lemma TheEndIsDeaf(graph: Graph, s: Snapshot, input: Input, turn: Turn)
    requires Taken(graph, s, input, turn) && !s.a.active && input.Ask?
    ensures turn.reply == MatchInactive && turn.course.Last() == s.At(input.now)
  {
    hide Handled, HandlesNext;
  }

  /** The loop stops by itself exactly after a turn, other than a refused command, by whose end the cleanup has
      been reported. */
  lemma TheLoopStopsIff(input: Input, turn: Turn)
    requires Attainable(turn.course.Last().a)
    ensures Over(input, turn) <==>
            && !(input.Ask? && turn.reply != Accepted)
            && exists i :: 0 <= i < |turn.course.Last().a.log| && turn.course.Last().a.log[i].kind == MatchCleaned
  {
    hide Attainable, Course.Last;
    var a := turn.course.Last().a;
    AttainableIsOk(a);
    TheEndingIsRight(a);
    CountedIffThere(a.log, MatchCleaned);
  }

  lemma TheEndingIsRight(a: Agenda)
    requires a.Ok()
    ensures Count(a.log, MatchCleaned) == (if a.cleanupDone then 1 else 0) && (a.active ==> !a.cleanupDone)
  {
    hide TravelOk, Booked;
  }

  lemma {:induction false} CountedIffThere(log: seq<AppliedEvent>, kind: AppliedKind)
    ensures Count(log, kind) > 0 <==> exists i :: 0 <= i < |log| && log[i].kind == kind
    decreases |log|
  {
    if log != [] {
      var n := |log| - 1;
      CountedIffThere(log[..n], kind);
      if exists i :: 0 <= i < |log| && log[i].kind == kind {
        var i :| 0 <= i < |log| && log[i].kind == kind;
        assert i < n ==> log[..n][i].kind == kind;
      }
    }
  }
}
