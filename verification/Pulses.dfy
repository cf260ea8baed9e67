/** The economy's clock: over every run of a match there is one pulse an hour. */
module Pulses {
  import opened Clock
  import opened Maps
  import opened Timelines
  import opened Workloads
  import opened Economy
  import opened MatchState
  import opened Agendas
  import opened Maneuvers
  import opened Chronicles
  import opened Histories
  import opened Commands
  import opened Turns
  import opened Revenues

  /** p is the one pulse in the queue. */
  ghost predicate OnlyPulse(pending: set<Event>, p: Event) {
    p in pending && p.kind == MacroPulse && forall e | e in pending && e.kind == MacroPulse :: e == p
  }

  lemma PostingNoPulse(units: UnitTable, before: set<Event>, after: set<Event>, most: nat, from: int, p: Event)
    requires Posted(units, before, after, most, from)
    ensures OnlyPulse(before, p) ==> OnlyPulse(after, p)
    ensures (forall e | e in before :: e.kind != MacroPulse) ==> forall e | e in after :: e.kind != MacroPulse
  {
  }

  lemma LegEndsPost(graph: Graph, s: Snapshot, e: Event, t: Snapshot)
    requires e.unitID in s.a.units && LegEnded(graph, s, e, t)
    ensures Posted(t.a.units, s.a.pending, t.a.pending, 2, e.at + MILLISECOND)
  {
    hide LegDone, Judged, Told, Reports, Unmoved, Posted;
  }

  lemma ChecksPost(s: Snapshot, e: Event, t: Snapshot)
    requires VictoryChecked(s, e, t)
    ensures Posted(t.a.units, s.a.pending, t.a.pending, 2, e.at + MILLISECOND)
  {
    hide Judged, Told, Posted;
    PostedMore(s.a.units, s.a.pending, t.a.pending, 1, 2, e.at + MILLISECOND);
  }

  lemma RecruitsPost(s: Snapshot, e: Event, t: Snapshot, order: Order, id: string)
    requires RecruitSettled(s, e, t, order, id)
    ensures t.a.pending == s.a.pending
  {
    hide BecameUnit, GaveBackHalf, StillHolds;
  }

  lemma BuildsPost(s: Snapshot, e: Event, t: Snapshot, order: Order)
    requires BuildSettled(s, e, t, order)
    ensures t.a.pending == s.a.pending
  {
    hide StillHolds;
  }

  /** What an event other than the pulse schedules is foreseen. */
  lemma OtherEventsPost(graph: Graph, s: Snapshot, e: Event, t: Snapshot)
    requires Handles(graph, s, e, t) && e.kind != MacroPulse
    ensures Posted(t.a.units, s.a.pending, t.a.pending, 2, e.at + MILLISECOND)
  {
    hide Attainable, LegEnded, VictoryChecked, RecruitSettled, BuildSettled, Posted;
    PostedNothing(t.a.units, s.a.pending, 2, e.at + MILLISECOND);
    match e.kind {
      case Arrival =>
        if Current(s.a.units, e) {
          LegEndsPost(graph, s, e, t);
        }
      case VictoryCheck => ChecksPost(s, e, t);
      case RecruitComplete =>
        var order, id :| RecruitSettled(s, e, t, order, id);
        RecruitsPost(s, e, t, order, id);
      case ConstructComplete =>
        var order :| BuildSettled(s, e, t, order);
        BuildsPost(s, e, t, order);
      case _ =>
    }
  }

  /** Handling an event replaces the pulse by the next one, an hour later, if it is the pulse; otherwise the pulse
      stays. */
  lemma OneEventBeats(graph: Graph, s: Snapshot, e: Event, t: Snapshot, now: int, p: Event) returns (q: Event)
    requires HandlesNext(graph, s, e, t, now) && OnlyPulse(s.a.pending, p)
    ensures OnlyPulse(t.a.pending, q)
    ensures if e.kind == MacroPulse then e == p && q.at == p.at + HOUR else q == p
  {
    hide Attainable, Paid, Pulsed, Posted, LegEnded, VictoryChecked, RecruitSettled, BuildSettled;
    q := p;
    if e.kind == MacroPulse {
      q :| NextPulse(s.a.pending - {e}, t.a.pending, q, e.at);
    } else {
      OtherEventsPost(graph, s.Without(e), e, t);
      PostingNoPulse(t.a.units, s.a.pending - {e}, t.a.pending, 2, e.at + MILLISECOND, p);
    }
  }

  /** How many pulses are among these events. */
  ghost function Beats(events: seq<Event>): nat {
    if events == [] then 0 else
      Beats(events[..|events| - 1]) + (if events[|events| - 1].kind == MacroPulse then 1 else 0)
  }

  lemma BeatsOneMore(events: seq<Event>)
    requires events != []
    ensures Beats(events)
         == Beats(events[..|events| - 1]) + (if events[|events| - 1].kind == MacroPulse then 1 else 0)
  {
  }

  lemma {:induction false} CoursesBeat(graph: Graph, c: Course, now: int, p: Event) returns (q: Event)
    requires c.Ok(graph, now) && OnlyPulse(c.first.a.pending, p)
    ensures OnlyPulse(c.Last().a.pending, q) && q.at == p.at + Beats(c.events) * HOUR
    ensures Beats(c.events) > 0 ==> q.at - HOUR <= now
    decreases |c.events|
  {
    hide HandlesNext, OnlyPulse, Beats;
    if c.events == [] {
      q := p;
      assert Beats(c.events) == 0 by { NoBeats(c.events); }
    } else {
      var n := |c.events| - 1;
      CourseBefore(graph, c, now);
      var r := CoursesBeat(graph, c.Before(), now, p);
      q := OneEventBeats(graph, c.Before().Last(), c.events[n], c.Last(), now, r);
      ItWasDue(graph, c.Before().Last(), c.events[n], c.Last(), now);
      BeatsOneMore(c.events);
    }
  }

  lemma NoBeats(events: seq<Event>)
    requires events == []
    ensures Beats(events) == 0
  {
  }

  lemma ItWasDue(graph: Graph, s: Snapshot, e: Event, t: Snapshot, now: int)
    requires HandlesNext(graph, s, e, t, now)
    ensures e.at <= now
  {
    hide Handles;
  }

  /** No command touches the pulse. */
  lemma CommandsKeepTheBeat(graph: Graph, s: Snapshot, issuer: string, c: Command, reply: Reply, t: Snapshot, p: Event)
    requires Dispatched(graph, s, issuer, c, reply, t) && OnlyPulse(s.a.pending, p)
    ensures OnlyPulse(t.a.pending, p)
  {
    hide Attainable, MoveServed, OrderServed, StrandsByQueueing, RecruitVerdict, ConstructVerdict, DiplomaticVerdict,
         LedgerAfter, Posted, OnlyPulse;
    PostingNoPulse(t.a.units, s.a.pending, t.a.pending, 1, s.a.clock + MILLISECOND, p);
  }

  /** How many pulses the first n turns have handled. */
  ghost function BeatsOf(turns: seq<Turn>, n: nat): nat
    requires n <= |turns|
  {
    if n == 0 then 0 else BeatsOf(turns, n - 1) + Beats(turns[n - 1].course.events)
  }

  lemma TurnsBeat(graph: Graph, s: Snapshot, input: Input, turn: Turn, p: Event) returns (q: Event)
    requires Taken(graph, s, input, turn) && OnlyPulse(s.a.pending, p)
    ensures OnlyPulse(turn.course.Last().a.pending, q) && q.at == p.at + Beats(turn.course.events) * HOUR
    ensures Beats(turn.course.events) > 0 ==> q.at - HOUR <= input.now
  {
    hide OnlyPulse, Dispatched, Course.Ok;
    if input.Ask? {
      CommandsKeepTheBeat(graph, s.At(input.now), input.issuer, input.command, turn.reply, turn.course.first, p);
    }
    q := CoursesBeat(graph, turn.course, input.now, p);
  }

  /** Over every run from an opening, there is one pulse in the queue after every turn, an hour after the last one
      handled, and the last one handled was due. */
  lemma {:induction false} RunsBeat(graph: Graph, s: Snapshot, inputs: seq<Input>, turns: seq<Turn>, n: nat, p: Event)
    returns (q: Event)
    requires Runs(graph, s, inputs, turns) && n <= |turns| && Forward(inputs, s.a.clock)
    requires OnlyPulse(s.a.pending, p)
    ensures OnlyPulse(MomentAfter(s, turns, n).a.pending, q) && q.at == p.at + BeatsOf(turns, n) * HOUR
    ensures BeatsOf(turns, n) > 0 ==> n > 0 && q.at - HOUR <= inputs[n - 1].now
  {
    hide OnlyPulse, Taken, GoesOn;
    if n == 0 {
      q := p;
    } else {
      var r := RunsBeat(graph, s, inputs, turns, n - 1, p);
      assert Taken(graph, MomentAfter(s, turns, n - 1), inputs[n - 1], turns[n - 1]);
      q := TurnsBeat(graph, MomentAfter(s, turns, n - 1), inputs[n - 1], turns[n - 1], r);
      assert n > 1 ==> inputs[n - 1 - 1].now <= inputs[n - 1].now;
    }
  }

  /** Whenever the events of a match that opened at `start` have been handled up to a time, exactly as many pulses
      have been as hours have passed. */
  lemma EveryHourHasItsPulse(graph: Graph, s: Snapshot, start: int, inputs: seq<Input>, turns: seq<Turn>, n: nat)
    requires Opens(s, s.a.players, s.a.provinces, s.a.units, start) && Forward(inputs, start)
    requires Runs(graph, s, inputs, turns) && 0 < n <= |turns| <= |inputs|
    requires NothingDue(MomentAfter(s, turns, n).a.pending, inputs[n - 1].now)
    ensures BeatsOf(turns, n) == (inputs[n - 1].now - start) / HOUR
  {
    hide Runs, BeatsOf;
    var p :| NextPulse({}, s.a.pending, p, start);
    var q := RunsBeat(graph, s, inputs, turns, n, p);
    var k, passed := BeatsOf(turns, n), inputs[n - 1].now - start;
    assert q.at == start + (k + 1) * HOUR && inputs[n - 1].now < q.at;
    assert k * HOUR <= passed < k * HOUR + HOUR;
  }
}
