/** The loop of a match, and what holds over every run of it. */
module Turns {
  import opened Clock
  import opened StringOrder
  import opened Maps
  import opened Geometry
  import opened Spatial
  import opened Diplomacy
  import opened DiplomacyRuns
  import opened Timelines
  import opened Units
  import opened Economy
  import opened MatchState
  import opened Agendas
  import opened Chronicles
  import opened Histories
  import opened Matches
  import opened Visibility
  import opened Commands
  import Setups

  /** What the loop of a match receives, and when. */
  datatype Input = Ask(issuer: string, command: Command, now: int) | Clock(now: int) | Resync(now: int)

  /** The clock does not run backwards from `start`. */
  ghost predicate Forward(inputs: seq<Input>, start: int) {
    forall i {:trigger inputs[i]} | 0 <= i < |inputs| ::
        start <= inputs[i].now && (i > 0 ==> inputs[i - 1].now <= inputs[i].now)
  }

  // ---------- one turn ----------

  /** What came of one input: the reply to its command, and what was handled then. */
  datatype Turn = Turn(reply: Reply, course: Course)

  /** The input is a command, and it was refused. */
  predicate Refusal(input: Input, reply: Reply) {
    input.Ask? && reply != Accepted
  }

  /** After a refused command, and when no more than a resync is asked for, nothing is handled. */
  predicate Idles(input: Input, reply: Reply) {
    input.Resync? || Refusal(input, reply)
  }

  /** t is what the input makes of s before any event is handled: the clock advances, and a command is
      dispatched. */
  ghost predicate Heeded(graph: Graph, s: Snapshot, input: Input, reply: Reply, t: Snapshot) {
    if input.Ask? then Dispatched(graph, s.At(input.now), input.issuer, input.command, reply, t)
    else reply == Accepted && t == s.At(input.now)
  }

  /** The turn is what the input makes of s: the clock advances, a command is dispatched before anything
      that is due is handled, and then events are handled one after the other. */
  ghost predicate Taken(graph: Graph, s: Snapshot, input: Input, turn: Turn) {
    && Heeded(graph, s, input, turn.reply, turn.course.first) && turn.course.Ok(graph, input.now)
    && (Idles(input, turn.reply) ==> turn.course.events == [])
  }

  /** Everything that the turn should have handled has been. */
  ghost predicate Finished(input: Input, turn: Turn) {
    Idles(input, turn.reply) || NothingDue(turn.course.Last().a.pending, input.now)
  }

  /** The loop stops after this turn: the match has been cleaned up. */
  ghost predicate Over(input: Input, turn: Turn) {
    !Refusal(input, turn.reply) && !turn.course.Last().a.active && turn.course.Last().a.cleanupDone
  }

  /** The turn hangs on e. */
  ghost predicate HangsAt(graph: Graph, input: Input, turn: Turn, e: Event) {
    !Idles(input, turn.reply) && e.at <= input.now && Hangs(graph, turn.course.Last(), e)
  }

  /** What every slot sees. */
  ghost predicate Shown(m: Match, views: map<string, set<string>>)
    reads m, m.diplomacy
  {
    && views.Keys == m.players
    && forall s {:trigger views[s]} | s in views ::
         views[s] == VisibleUnits(m.graph, m.provinces, m.units, Contributors(m.diplomacy.Value(), m.players, s),
             m.gameNow)
  }

  /** broadcastState: what every slot sees is worked out for it. */
  method Broadcast(m: Match, sqrt: real -> real) returns (views: map<string, set<string>>)
    requires m.Core() && Coherent(m) && IsSqrt(sqrt) && IsHypot(m.graph.hypot)
    modifies m`cached, m`cacheVersion, m`contributors
    ensures m.Core() && Coherent(m) && Shown(m, views)
  {
    hide Timeline.Valid, Attainable, CacheOk, VisibleProvinces, VisibleUnits, Contributors;
    views := map[];
    var slots := m.SlotIDs();
    for i := 0 to |slots|
      invariant m.Core() && Coherent(m) && views.Keys == Elements(slots[..i])
      invariant forall s {:trigger views[s]} | s in views ::
          views[s] == VisibleUnits(m.graph, m.provinces, m.units, Contributors(m.diplomacy.Value(), m.players, s),
              m.gameNow)
    {
      var provinces, units := For(m, slots[i], m.gameNow, sqrt);
      views := views[slots[i] := units];
      ElementsOneMore(slots, i);
    }
    assert slots[..|slots|] == slots;
  }

  /** A good cache stays good. */
  lemma ServedCacheStaysOk(l: Ledger, players: set<string>, active: bool, issuer: string, c: Command, now: int,
                           cached: bool, version: nat, table: map<string, set<string>>)
    requires CacheOk(l, players, cached, version, table)
    ensures CacheOk(LedgerOnceServed(l, players, active, issuer, c, now), players, cached, version, table)
  {
    hide CacheOk, Ledger.After;
    if active && issuer != "" && c.Diplomatic? && Addressed(players, issuer, c.target) {
      CacheStaysOk(l, OpOf(c.action, issuer, c.target), now, players, cached, version, table);
    }
  }

  /** A command is served, and the cache of contributors stays good. */
  method Serve(m: Match, issuer: string, c: Command) returns (reply: Reply)
    requires m.Core() && m.busy == {} && m.Solvent() && m.graph.Sound() && Coherent(m)
    modifies m`units, m`busy, m`stranded, m`resources, m`nextRecruit, m`nextBuild, m`ids, m`paid, m`log, m`seqNo,
             m.diplomacy, m.timeline, m.timeline.heap
    ensures m.Core() && m.busy == {} && m.Solvent() && Coherent(m)
    ensures Dispatched(m.graph, old(m.Snap()), issuer, c, reply, m.Snap())
  {
    hide Timeline.Valid, Attainable, Graph.Sound, Match.Solvent, LedgerOnceServed, CacheOk, Dispatched;
    ServedCacheStaysOk(m.diplomacy.Value(), m.players, m.active, issuer, c, m.gameNow, m.cached, m.cacheVersion,
        m.contributors);
    reply := Dispatch(m, issuer, c);
    DispatchingKeeps(m.graph, old(m.Snap()), issuer, c, reply, m.Snap());
  }

  /** The clock advances, and a command is served before anything that is due is handled. */
  method Heed(m: Match, input: Input) returns (reply: Reply)
    requires m.Core() && m.busy == {} && m.Solvent() && m.graph.Sound() && Coherent(m) && m.gameNow <= input.now
    modifies m`gameNow, m`units, m`busy, m`stranded, m`resources, m`nextRecruit, m`nextBuild, m`ids, m`paid, m`log,
             m`seqNo, m.diplomacy, m.timeline, m.timeline.heap
    ensures m.Core() && m.busy == {} && m.Solvent() && Coherent(m) && m.gameNow == input.now
    ensures Heeded(m.graph, old(m.Snap()), input, reply, m.Snap())
    ensures !input.Ask? ==> m.log == old(m.log)
  {
    hide Timeline.Valid, Attainable, Graph.Sound, Match.Solvent, CacheOk, Dispatched;
    m.Advance(input.now);
    assert m.Snap() == old(m.Snap()).At(input.now);
    reply := Accepted;
    if input.Ask? {
      reply := Serve(m, input.issuer, input.command);
    }
  }

  /** What is due is handled, and whether anything was reported. */
  method Drain(m: Match) returns (hung: bool, news: bool, ghost course: Course, ghost e: Event)
    requires m.Core() && m.busy == {} && m.Solvent() && m.graph.Sound() && Coherent(m)
    modifies m`units, m`provinces, m`resources, m`buildings, m`busy, m`stranded, m`active, m`winnerSlot, m`winnerCoal,
             m`cleanupDone, m`seqNo, m`log, m`nextRecruit, m`nextBuild, m`ids, m`delivered, m`refunded,
             m.timeline, m.timeline.heap
    ensures course.Ok(m.graph, m.gameNow) && course.first == old(m.Snap())
    ensures hung ==> e.at <= m.gameNow && Hangs(m.graph, course.Last(), e)
    ensures !hung ==> course.Last() == m.Snap() && m.Core() && m.busy == {} && m.Solvent() && Coherent(m)
    ensures !hung ==> NothingDue(m.timeline.pending, m.gameNow) && (news <==> m.log != old(m.log))
  {
    hide Timeline.Valid, Attainable, Graph.Sound, Match.Solvent, NothingDue, CacheOk, Hangs, InOrder, Numbered,
         Course.Ok, Chronicled;
    var out;
    hung, out, course, e := m.ProcessNext(m.gameNow);
    news := |out| > 0;
  }

  /** A turn without telling anyone. */
  method Act(m: Match, input: Input) returns (hung: bool, refused: bool, news: bool, ghost turn: Turn, ghost e: Event)
    requires m.Core() && m.busy == {} && m.Solvent() && m.graph.Sound() && Coherent(m) && m.gameNow <= input.now
    modifies m, m.diplomacy, m.timeline, m.timeline.heap
    ensures Taken(m.graph, old(m.Snap()), input, turn) && (refused <==> Refusal(input, turn.reply))
    ensures hung ==> HangsAt(m.graph, input, turn, e)
    ensures !hung ==> turn.course.Last() == m.Snap() && Finished(input, turn)
    ensures !hung ==> m.Core() && m.busy == {} && m.Solvent() && Coherent(m)
    ensures !hung && input.Clock? ==> (news <==> m.log != old(m.log))
  {
    hide Timeline.Valid, Attainable, Graph.Sound, Match.Solvent, NothingDue, CacheOk, Hangs, Heeded, HandlesNext;
    var reply := Heed(m, input);
    refused := input.Ask? && reply != Accepted;
    if refused || input.Resync? {
      hung, news, turn, e := false, false, Turn(reply, Course(m.Snap(), [], [])), Event(0, 0, Arrival, "", 0);
    } else {
      ghost var course;
      hung, news, course, e := Drain(m);
      turn := Turn(reply, course);
    }
  }

  /** One turn of the loop.  The slots are told what they see after an accepted command, on a resync, and
      when something has happened. */
  method TakeTurn(m: Match, input: Input, sqrt: real -> real)
    returns (hung: bool, refused: bool, told: bool, views: map<string, set<string>>, ghost turn: Turn, ghost e: Event)
    requires m.Core() && m.busy == {} && m.Solvent() && m.graph.Sound() && m.gameNow <= input.now
    requires Coherent(m) && IsSqrt(sqrt)
    modifies m, m.diplomacy, m.timeline, m.timeline.heap
    ensures Taken(m.graph, old(m.Snap()), input, turn) && (refused <==> Refusal(input, turn.reply))
    ensures hung ==> HangsAt(m.graph, input, turn, e)
    ensures !hung ==> turn.course.Last() == m.Snap() && Finished(input, turn)
    ensures !hung ==> m.Core() && m.busy == {} && m.Solvent() && Coherent(m)
    ensures told ==> Shown(m, views)
    ensures !hung ==> (told <==> !refused && (input.Clock? ==> m.log != old(m.log)))
  {
    hide Timeline.Valid, Attainable, Graph.Sound, Match.Solvent, CacheOk, IsSqrt, Shown, Taken, Finished, HangsAt;
    SoundMapsMeasure(m.graph);
    var news;
    hung, refused, news, turn, e := Act(m, input);
    told, views := !hung && !refused && (input.Clock? ==> news), map[];
    if told {
      views := Broadcast(m, sqrt);
    }
  }

  lemma SoundMapsMeasure(graph: Graph)
    requires graph.Sound()
    ensures IsHypot(graph.hypot)
  {
  }

  // ---------- whole runs ----------

  /** The moment after n turns. */
  ghost function MomentAfter(s: Snapshot, turns: seq<Turn>, n: nat): Snapshot
    requires n <= |turns|
  {
    if n == 0 then s else turns[n - 1].course.Last()
  }

  /** Each turn but the last has finished, and the loop has gone on after it. */
  ghost predicate GoesOn(input: Input, turn: Turn) {
    Finished(input, turn) && !Over(input, turn)
  }

  /** The turns are what the loop makes of the inputs, one after the other, in a match that was s. */
  ghost predicate Runs(graph: Graph, s: Snapshot, inputs: seq<Input>, turns: seq<Turn>) {
    && |turns| <= |inputs|
    && (forall i {:trigger turns[i]} | 0 <= i < |turns| ::
          Taken(graph, MomentAfter(s, turns, i), inputs[i], turns[i]))
    && forall i {:trigger turns[i]} | 0 <= i < |turns| - 1 :: GoesOn(inputs[i], turns[i])
  }

  lemma RunsOn(graph: Graph, s: Snapshot, inputs: seq<Input>, turns: seq<Turn>, turn: Turn)
    requires Runs(graph, s, inputs, turns) && |turns| < |inputs|
    requires turns != [] ==> GoesOn(inputs[|turns| - 1], turns[|turns| - 1])
    requires Taken(graph, MomentAfter(s, turns, |turns|), inputs[|turns|], turn)
    ensures Runs(graph, s, inputs, turns + [turn]) && MomentAfter(s, turns + [turn], |turns| + 1) == turn.course.Last()
  {
    hide Taken, GoesOn, Course.Last;
    var more := turns + [turn];
    forall i | 0 <= i < |more|
      ensures Taken(graph, MomentAfter(s, more, i), inputs[i], more[i])
    {
      assert MomentAfter(s, more, i) == MomentAfter(s, turns, i);
      assert i < |turns| ==> more[i] == turns[i];
    }
    forall i | 0 <= i < |more| - 1
      ensures GoesOn(inputs[i], more[i])
    {
      assert more[i] == turns[i];
    }
  }

  /** What a turn keeps. */
  lemma TurnsKeep(graph: Graph, s: Snapshot, input: Input, turn: Turn)
    requires Taken(graph, s, input, turn)
    ensures var t := turn.course.Last();
            && t.a.clock == input.now && t.a.players == s.a.players && s.a.log <= t.a.log
            && t.ledger == LedgerAfterTurn(s, input) && (!QueuesAMove(input) ==> t.a.stranded <= s.a.stranded)
            && (Attainable(s.a) && s.a.busy == {} && s.a.clock <= input.now ==> Attainable(t.a) && t.a.busy == {})
  {
    hide Attainable, Dispatched, Course.Ok, LedgerOnceServed;
    CoursesKeep(graph, turn.course, input.now);
    if input.Ask? {
      DispatchingKeeps(graph, s.At(input.now), input.issuer, input.command, turn.reply, turn.course.first);
      assert Dispatched(graph, s.At(input.now), input.issuer, input.command, turn.reply, turn.course.first);
      DispatchingIsAttainable(graph, s.At(input.now), input.issuer, input.command, turn.reply, turn.course.first);
    } else if Attainable(s.a) && s.a.busy == {} && s.a.clock <= input.now {
      Goes(s.a, Tick(input.now));
    }
  }

  lemma DispatchingIsAttainable(graph: Graph, s: Snapshot, issuer: string, c: Command, reply: Reply, t: Snapshot)
    requires Dispatched(graph, s, issuer, c, reply, t)
    ensures Attainable(t.a) && t.a.busy == {}
  {
    hide Handled, Attainable;
  }

  predicate QueuesAMove(input: Input) {
    input.Ask? && input.command.Move? && input.command.queue
  }

  ghost function LedgerAfterTurn(s: Snapshot, input: Input): Ledger {
    if input.Ask? then LedgerOnceServed(s.ledger, s.a.players, s.a.active, input.issuer, input.command, input.now)
    else s.ledger
  }

  ghost predicate NothingQueued(inputs: seq<Input>) {
    forall i {:trigger inputs[i]} | 0 <= i < |inputs| :: !QueuesAMove(inputs[i])
  }

  /** What every run keeps: all its moments are attainable, so that every law of agendas holds of them;
      reports are only added; and only a queued move strands a unit. */
  lemma {:induction false} RunsKeep(graph: Graph, s: Snapshot, inputs: seq<Input>, turns: seq<Turn>, n: nat)
    requires Runs(graph, s, inputs, turns) && n <= |turns| && Forward(inputs, s.a.clock)
    requires Attainable(s.a) && s.a.busy == {}
    ensures var t := MomentAfter(s, turns, n);
            && Attainable(t.a) && t.a.busy == {} && t.a.players == s.a.players && s.a.log <= t.a.log
            && t.a.clock == (if n == 0 then s.a.clock else inputs[n - 1].now)
            && (NothingQueued(inputs) ==> t.a.stranded <= s.a.stranded)
  {
    hide Attainable, Taken, GoesOn;
    if n == 0 {
    } else {
      RunsKeep(graph, s, inputs, turns, n - 1);
      assert inputs[n - 1].now >= s.a.clock && (n > 1 ==> inputs[n - 1 - 1].now <= inputs[n - 1].now);
      assert Taken(graph, MomentAfter(s, turns, n - 1), inputs[n - 1], turns[n - 1]);
      TurnsKeep(graph, MomentAfter(s, turns, n - 1), inputs[n - 1], turns[n - 1]);
    }
  }

  // ---------- the ledger over a run ----------

  /** The request that an input makes of the registry, if any. */
  ghost function RequestOf(s: Snapshot, input: Input): seq<Request> {
    if input.Ask? && s.a.active && input.issuer != "" && input.command.Diplomatic?
       && Addressed(s.a.players, input.issuer, input.command.target)
    then [Request(OpOf(input.command.action, input.issuer, input.command.target), input.now)]
    else []
  }

  /** The requests that the first n inputs make. */
  ghost function Requests(s: Snapshot, inputs: seq<Input>, turns: seq<Turn>, n: nat): seq<Request>
    requires n <= |turns| <= |inputs|
  {
    if n == 0 then [] else
      Requests(s, inputs, turns, n - 1) + RequestOf(MomentAfter(s, turns, n - 1), inputs[n - 1])
  }

  /** The requests, in order of time, explain the ledger. */
  ghost predicate Explains(rs: seq<Request>, l: Ledger, now: int) {
    && Orderly(rs) && Monotone(rs) && l == State(rs, |rs|)
    && forall i {:trigger rs[i]} | 0 <= i < |rs| :: rs[i].now <= now
  }

  lemma {:induction false} StateIsLocal(rs: seq<Request>, r: Request, n: nat)
    requires n <= |rs|
    ensures State(rs + [r], n) == State(rs, n)
  {
    if n == 0 {
    } else {
      StateIsLocal(rs, r, n - 1);
      assert (rs + [r])[n - 1] == rs[n - 1];
    }
  }

  /** A turn makes at most one request. */
  lemma OneMoreRequest(rs: seq<Request>, s: Snapshot, input: Input)
    requires Explains(rs, s.ledger, s.a.clock) && s.a.clock <= input.now
    ensures Explains(rs + RequestOf(s, input), LedgerAfterTurn(s, input), input.now)
  {
    var more := RequestOf(s, input);
    if more == [] {
      assert rs + more == rs;
    } else {
      StateIsLocal(rs, more[0], |rs|);
    }
  }

  /** Over every run, the requests made so far explain the ledger: so every law of diplomatic runs holds of
      it. */
  lemma {:induction false} RunsAreExplained(graph: Graph, s: Snapshot, inputs: seq<Input>, turns: seq<Turn>, n: nat)
    requires Runs(graph, s, inputs, turns) && n <= |turns| && Forward(inputs, s.a.clock) && s.ledger == EMPTY
    requires Attainable(s.a) && s.a.busy == {}
    ensures Explains(Requests(s, inputs, turns, n), MomentAfter(s, turns, n).ledger, MomentAfter(s, turns, n).a.clock)
  {
    hide Attainable, Taken, GoesOn, Explains, LedgerAfterTurn, RequestOf;
    if n == 0 {
      NothingToExplain(s.a.clock);
    } else {
      var before, input := MomentAfter(s, turns, n - 1), inputs[n - 1];
      RunsAreExplained(graph, s, inputs, turns, n - 1);
      RunsKeep(graph, s, inputs, turns, n - 1);
      assert inputs[n - 1].now >= s.a.clock && (n > 1 ==> inputs[n - 1 - 1].now <= inputs[n - 1].now);
      assert Taken(graph, before, input, turns[n - 1]);
      TurnsKeep(graph, before, input, turns[n - 1]);
      OneMoreRequest(Requests(s, inputs, turns, n - 1), before, input);
    }
  }

  lemma ExplainedRunsAreSpaced(rs: seq<Request>, l: Ledger, now: int, p: Pair, i: nat, j: nat)
    requires Explains(rs, l, now) && i < j < |rs| && Changes(rs, p, i) && Changes(rs, p, j)
    ensures rs[i].now + COOLDOWN_BETWEEN_CHANGES <= rs[j].now
  {
    ForwardClocksAreTimely(rs);
    ChangesAreSpaced(rs, p, i, j);
  }

  /** So over every run of a match, the changes of a pair's stance are at least an hour apart. */
  lemma RunsAreSpaced(graph: Graph, s: Snapshot, inputs: seq<Input>, turns: seq<Turn>, p: Pair, i: nat, j: nat)
    requires Runs(graph, s, inputs, turns) && Forward(inputs, s.a.clock) && s.ledger == EMPTY
    requires Attainable(s.a) && s.a.busy == {}
    requires var rs := Requests(s, inputs, turns, |turns|); i < j < |rs| && Changes(rs, p, i) && Changes(rs, p, j)
    ensures var rs := Requests(s, inputs, turns, |turns|);
            i < j < |rs| && rs[i].now + COOLDOWN_BETWEEN_CHANGES <= rs[j].now
  {
    hide Attainable, Taken, GoesOn, Requests, Explains;
    RunsAreExplained(graph, s, inputs, turns, |turns|);
    ExplainedRunsAreSpaced(Requests(s, inputs, turns, |turns|), MomentAfter(s, turns, |turns|).ledger,
        MomentAfter(s, turns, |turns|).a.clock, p, i, j);
  }

  /** A run hangs only on a turn in which some slots are allied. */
  lemma OnlyAlliancesHang(graph: Graph, input: Input, turn: Turn, e: Event)
    requires HangsAt(graph, input, turn, e)
    ensures !NoAlliances(turn.course.Last().ledger, turn.course.Last().a.players)
  {
    hide Hangs, NoAlliances;
    if NoAlliances(turn.course.Last().ledger, turn.course.Last().a.players) {
      WithoutAlliancesNothingHangs(graph, turn.course.Last(), e);
    }
  }

  lemma NothingToExplain(now: int)
    ensures Explains([], EMPTY, now)
  {
  }

  // ---------- the loop ----------

  /** One more turn of the loop, after the turns so far; whether the match is then over. */
  method NextTurn(m: Match, inputs: seq<Input>, i: nat, sqrt: real -> real, ghost s: Snapshot, ghost turns: seq<Turn>)
    returns (hung: bool, over: bool, ghost more: seq<Turn>, ghost e: Event)
    requires m.Core() && m.busy == {} && m.Solvent() && m.graph.Sound() && Coherent(m) && IsSqrt(sqrt)
    requires Attainable(s.a) && s.a.busy == {} && Forward(inputs, s.a.clock)
    requires Runs(m.graph, s, inputs, turns) && |turns| == i < |inputs| && MomentAfter(s, turns, i) == m.Snap()
    requires turns != [] ==> GoesOn(inputs[i - 1], turns[i - 1])
    modifies m, m.diplomacy, m.timeline, m.timeline.heap
    ensures Runs(m.graph, s, inputs, more) && |more| == i + 1
    ensures hung ==> HangsAt(m.graph, inputs[i], more[i], e)
    ensures !hung ==> MomentAfter(s, more, i + 1) == m.Snap() && Finished(inputs[i], more[i])
    ensures !hung ==> (over <==> Over(inputs[i], more[i]))
    ensures !hung ==> m.Core() && m.busy == {} && m.Solvent() && Coherent(m)
  {
    hide Timeline.Valid, Attainable, Graph.Sound, Match.Solvent, CacheOk, IsSqrt, HangsAt, Taken, Finished, Shown,
         Forward, Runs;
    ForwardSoFar(m.graph, s, inputs, turns);
    var refused, told, views;
    ghost var turn;
    hung, refused, told, views, turn, e := TakeTurn(m, inputs[i], sqrt);
    RunsOn(m.graph, s, inputs, turns, turn);
    more := turns + [turn];
    over := !refused && !m.active && m.cleanupDone;
  }

  /** runMatch.  The turns that it takes are exactly what the inputs make of the match as it was: whatever is
      sent to it, in whatever order, all of RunsKeep and RunsAreExplained holds of it.  It takes a turn for
      every input, unless a turn hangs, or the match that it had decided has been cleaned up. */
  method RunMatch(m: Match, inputs: seq<Input>, sqrt: real -> real)
    returns (hung: bool, ended: bool, ghost turns: seq<Turn>, ghost e: Event)
    requires m.Core() && m.busy == {} && m.Solvent() && m.graph.Sound() && Forward(inputs, m.gameNow)
    requires Coherent(m) && IsSqrt(sqrt)
    modifies m, m.diplomacy, m.timeline, m.timeline.heap
    ensures Runs(m.graph, old(m.Snap()), inputs, turns)
    ensures hung ==> turns != [] && HangsAt(m.graph, inputs[|turns| - 1], turns[|turns| - 1], e)
    ensures !hung ==> MomentAfter(old(m.Snap()), turns, |turns|) == m.Snap()
    ensures !hung ==> m.Core() && m.busy == {} && m.Solvent() && Coherent(m)
    ensures !hung && turns != [] ==> Finished(inputs[|turns| - 1], turns[|turns| - 1])
    ensures !hung && !ended ==> |turns| == |inputs| && (turns != [] ==> !Over(inputs[|turns| - 1], turns[|turns| - 1]))
    ensures ended ==> !hung && turns != [] && Over(inputs[|turns| - 1], turns[|turns| - 1])
    ensures !hung ==> Count(m.log, MatchEnded) <= 1 && Count(m.log, MatchCleaned) <= Count(m.log, MatchEnded)
  {
    hide Timeline.Valid, Attainable, Graph.Sound, Match.Solvent, CacheOk, IsSqrt, HangsAt, Taken, Finished, Over,
         Forward;
    hung, ended, turns, e := false, false, [], Event(0, 0, Arrival, "", 0);
    for i := 0 to |inputs|
      invariant m.Core() && m.busy == {} && m.Solvent() && Coherent(m) && !hung && !ended
      invariant |turns| == i && Runs(m.graph, old(m.Snap()), inputs, turns)
      invariant MomentAfter(old(m.Snap()), turns, i) == m.Snap()
      invariant turns != [] ==> GoesOn(inputs[i - 1], turns[i - 1])
    {
      hung, ended, turns, e := NextTurn(m, inputs, i, sqrt, old(m.Snap()), turns);
      if hung {
        return true, false, turns, e;
      }
      if ended {
        break;
      }
    }
    DecidedOnce(m.Present());
  }

  lemma ForwardSoFar(graph: Graph, s: Snapshot, inputs: seq<Input>, turns: seq<Turn>)
    requires Runs(graph, s, inputs, turns) && Forward(inputs, s.a.clock) && Attainable(s.a) && s.a.busy == {}
    ensures |turns| < |inputs| ==> MomentAfter(s, turns, |turns|).a.clock <= inputs[|turns|].now
  {
    hide Attainable, Taken, GoesOn;
    var n := |turns|;
    RunsKeep(graph, s, inputs, turns, n);
    if 0 < n < |inputs| {
      assert inputs[n - 1].now <= inputs[n].now;
    }
  }

  /** A match on a map, from its creation on: s is its opening, and the turns are what the inputs make of it. */
  method Play(board: Setups.GameMap, hypot: (real, real) -> real, start: int, inputs: seq<Input>, sqrt: real -> real)
    returns (m: Match?, hung: bool, ended: bool, ghost s: Snapshot, ghost turns: seq<Turn>, ghost e: Event)
    requires Setups.Sensible(board, hypot) && IsSqrt(sqrt) && Forward(inputs, start)
    ensures m != null <==> Setups.Deployable(board.provinces, board.startingUnits)
    ensures m != null ==> fresh(m) && Setups.Starts(board, start, s)
    ensures m != null ==> m.graph == Setups.GraphOf(board, hypot, s.a.provinces) && Runs(m.graph, s, inputs, turns)
    ensures m != null && hung ==> turns != [] && HangsAt(m.graph, inputs[|turns| - 1], turns[|turns| - 1], e)
    ensures m != null && !hung ==>
        m.Core() && m.Solvent() && MomentAfter(s, turns, |turns|) == m.Snap()
        && (turns != [] ==> Finished(inputs[|turns| - 1], turns[|turns| - 1]))
    ensures m != null && !hung && !ended ==> |turns| == |inputs|
    ensures m != null && ended ==> !hung && turns != [] && Over(inputs[|turns| - 1], turns[|turns| - 1])
  {
    hide Timeline.Valid, Attainable, Graph.Sound, IsSqrt, HangsAt, Taken, Finished, Over, Setups.Sensible,
         Setups.Deployable, Setups.Founded, Setups.Deployed, Match.Solvent;
    m := Setups.NewMatch(board, hypot, start);
    hung, ended, turns, e := false, false, [], Event(0, 0, Arrival, "", 0);
    if m == null {
      s := Nowhere(start);
    } else {
      s := m.Snap();
      hung, ended, turns, e := RunMatch(m, inputs, sqrt);
    }
  }

  /** No match at all. */
  ghost function Nowhere(now: int): Snapshot {
    Snapshot(Agenda({}, map[], map[], {}, now, map[], map[], true, false, [], 0, {}, {}, {}, {}, {}, {}), EMPTY, map[],
        [], "", [])
  }
}
