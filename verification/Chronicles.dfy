/** The order of what happens while the event loop runs. */
module Chronicles {
  import opened Clock
  import opened Timelines
  import opened Workloads
  import opened Units
  import opened MatchState
  import opened Maneuvers
  import opened Revenues

  ghost predicate NothingDue(pending: set<Event>, now: int) {
    forall e | e in pending :: now < e.at
  }

  ghost predicate NothingBefore(pending: set<Event>, at: int) {
    forall e | e in pending :: at <= e.at
  }

  /** The reports come in order of time, and none is from after `now`. */
  ghost predicate InOrder(out: seq<AppliedEvent>, now: int) {
    forall i, j {:trigger out[i], out[j]} | 0 <= i <= j < |out| :: out[i].at <= out[j].at <= now
  }

  /** The reports are numbered on from n. */
  ghost predicate Numbered(out: seq<AppliedEvent>, n: nat) {
    forall i {:trigger out[i]} | 0 <= i < |out| :: out[i].seqNo == n + 1 + i
  }

  /** What was reported since `before` is in order of time, up to `last`. */
  ghost predicate Chronicled(before: seq<AppliedEvent>, after: seq<AppliedEvent>, last: int) {
    before <= after && InOrder(after[|before|..], last)
  }

  lemma {:induction false} SomeTimeIsEarly(pending: set<Event>, now: int) returns (t: int)
    ensures t <= now && NothingBefore(pending, t)
    decreases pending
  {
    if pending == {} {
      t := now;
    } else {
      var e :| e in pending;
      t := SomeTimeIsEarly(pending - {e}, now);
      t := if e.at < t then e.at else t;
    }
  }

  lemma ChronicleOpens(log: seq<AppliedEvent>, last: int)
    ensures Chronicled(log, log, last)
  {
    assert log[|log|..] == [];
  }

  /** Handling a later event continues the chronicle. */
  lemma ChronicleGoesOn(a: seq<AppliedEvent>, b: seq<AppliedEvent>, c: seq<AppliedEvent>, last: int, at: int)
    requires Chronicled(a, b, last) && Told(b, c, at) && last <= at
    ensures Chronicled(a, c, at)
  {
    assert forall i | 0 <= i < |b| :: c[i] == b[i];
    var told, out := b[|a|..], c[|a|..];
    forall i, j | 0 <= i <= j < |out|
      ensures out[i].at <= out[j].at <= at
    {
      assert out[i] == c[|a| + i] && out[j] == c[|a| + j];
      if j < |told| {
        assert out[i] == told[i] && out[j] == told[j];
      } else if i < |told| {
        assert out[i] == told[i] && told[i].at <= told[i].at <= last;
      }
    }
  }

  lemma ChronicleStretches(a: seq<AppliedEvent>, b: seq<AppliedEvent>, last: int, at: int)
    requires Chronicled(a, b, last) && last <= at
    ensures Chronicled(a, b, at)
  {
    forall i, j | 0 <= i <= j < |b[|a|..]|
      ensures b[|a|..][i].at <= b[|a|..][j].at <= at
    {
      assert b[|a|..][i].at <= b[|a|..][j].at <= last;
    }
  }

  lemma ChronicleEnds(before: seq<AppliedEvent>, after: seq<AppliedEvent>, last: int, now: int, m: nat, n: nat)
    requires Chronicled(before, after, last) && last <= now && LogOk(before, m) && LogOk(after, n)
    ensures |before| <= |after|
    ensures var out := after[|before|..]; after == before + out && InOrder(out, now) && Numbered(out, m)
  {
  }

  lemma PulsedIsTold(before: seq<AppliedEvent>, after: seq<AppliedEvent>, at: int, slots: set<string>)
    requires Pulsed(before, after, at, slots)
    ensures Told(before, after, at)
  {
  }

  // ---------- what is scheduled ----------

  /** An event that a match schedules for a reason: the arrival that its unit waits for, the completion of
      an order, or the cleanup of the match. */
  ghost predicate Foreseen(units: UnitTable, e: Event) {
    e.kind in {RecruitComplete, ConstructComplete, MatchCleanup} || Current(units, e)
  }

  /** From before to after, at most two such events were scheduled, all at or after `from`. */
  ghost predicate Posted(units: UnitTable, before: set<Event>, after: set<Event>, most: nat, from: int) {
    Added(before, after, most, from) && forall e | e in after && e !in before :: Foreseen(units, e)
  }

  lemma PostedNothing(units: UnitTable, q: set<Event>, most: nat, from: int)
    ensures Posted(units, q, q, most, from)
  {
    AddedNothing(q, most, from);
  }

  lemma PostedOne(units: UnitTable, q: set<Event>, e: Event, from: int)
    requires from <= e.at && Foreseen(units, e)
    ensures Posted(units, q, q + {e}, 1, from)
  {
    AddedOne(q, e, from);
  }

  lemma PostedTogether(units: UnitTable, a: set<Event>, b: set<Event>, c: set<Event>, m: nat, n: nat, from: int)
    requires Posted(units, a, b, m, from) && Posted(units, b, c, n, from)
    ensures Posted(units, a, c, m + n, from)
  {
    AddedTogether(a, b, c, m, n, from);
  }

  lemma PostedLater(units: UnitTable, a: set<Event>, b: set<Event>, most: nat, later: int, from: int)
    requires Posted(units, a, b, most, later) && from <= later
    ensures Posted(units, a, b, most, from)
  {
  }

  lemma PostedMore(units: UnitTable, a: set<Event>, b: set<Event>, few: nat, most: nat, from: int)
    requires Posted(units, a, b, few, from) && few <= most
    ensures Posted(units, a, b, most, from)
  {
  }

  /** New events are later than an earliest one. */
  lemma LaterThanLeast(before: set<Event>, e: Event, after: set<Event>)
    requires e in before && NothingBefore(before, e.at) && Added(before - {e}, after, 2, e.at + MILLISECOND)
    ensures NothingBefore(after, e.at)
  {
    forall o | o in after
      ensures e.at <= o.at
    {
      if o in before - {e} {
        assert e.at <= o.at;
      }
    }
  }

  /** No unit that was there before is anywhere else now. */
  ghost predicate Steady(before: UnitTable, after: UnitTable, at: int) {
    forall o {:trigger after[o]} | o in after && o in before :: after[o].PositionAt(at) == before[o].PositionAt(at)
  }

  lemma UnmovedIsSteady(before: UnitTable, after: UnitTable, at: int)
    requires Unmoved(before, after, at)
    ensures Steady(before, after, at)
  {
  }

  lemma NothingJumped(units: UnitTable, at: int)
    ensures Steady(units, units, at)
  {
  }

  lemma RecruitingIsSteady(order: Order, provinces: ProvinceTable, before: UnitTable, after: UnitTable, id: string,
      at: int)
    requires BecameUnit(order, provinces, before, after, id, at) || before == after
    ensures Steady(before, after, at)
  {
  }
}
