/** The books over a whole match: what every slot has is what it began with, and what its provinces, buildings and
    refunds have brought, less what its orders have cost. */
module Books {
  import opened Clock
  import opened Maps
  import opened Diplomacy
  import opened Timelines
  import opened Units
  import opened Economy
  import opened MatchState
  import opened Agendas
  import opened Revenues
  import opened Maneuvers
  import opened Chronicles
  import opened Histories
  import opened Commands
  import opened Turns

  /** What the slot gets back when e is handled: half the price of an order of its own, if it has lost the province
      of that order. */
  ghost function GivenBack(orders: OrderTable, provinces: ProvinceTable, e: Event, slot: string): Resources {
    if exists p :: p in orders && orders[p].id == e.unitID then
      var p :| p in orders && orders[p].id == e.unitID;
      if orders[p].owner == slot && !StillHolds(provinces, orders[p]) then UnitPrice(orders[p].what).Halved()
      else NOTHING
    else NOTHING
  }

  /** What e brings the slot. */
  ghost function Brought(s: Snapshot, e: Event, slot: string): Resources {
    if e.kind == MacroPulse then Revenue(s.a.provinces, s.buildings, slot)
    else if e.kind == RecruitComplete then GivenBack(s.a.recruits, s.a.provinces, e, slot)
    else NOTHING
  }

  lemma PulsesBring(s: Snapshot, e: Event, t: Snapshot, slot: string)
    requires PulsePaid(s, e, t) && slot in s.banks && e.kind == MacroPulse
    ensures slot in t.banks && t.banks[slot] == s.banks[slot].Plus(Brought(s, e, slot))
  {
    hide Revenue, Resources.Plus, Pulsed, NextPulse, GivenBack;
  }

  lemma OrdersBring(s: Snapshot, e: Event, t: Snapshot, order: Order, id: string, slot: string)
    requires RecruitSettled(s, e, t, order, id) && Filed(s.a.recruits) && slot in s.banks && e.kind == RecruitComplete
    ensures slot in t.banks && t.banks[slot] == s.banks[slot].Plus(Brought(s, e, slot))
  {
    hide BecameUnit, StillHolds, Resources.Halved;
    assert s.a.recruits[order.province].id == e.unitID;
  }

  lemma OrdersAreFiled(a: Agenda)
    requires Attainable(a)
    ensures Filed(a.recruits)
  {
    hide Attainable, TravelOk, EndingOk;
    AttainableIsOk(a);
  }

  lemma BuildsBringNothing(s: Snapshot, e: Event, t: Snapshot)
    requires e.kind == ConstructComplete && exists order :: BuildSettled(s, e, t, order)
    ensures t.banks == s.banks
  {
    hide StillHolds;
  }

  lemma OneEventBrings(graph: Graph, s: Snapshot, e: Event, t: Snapshot, now: int, slot: string)
    requires HandlesNext(graph, s, e, t, now) && Attainable(s.a) && slot in s.banks
    ensures slot in t.banks && t.banks[slot] == s.banks[slot].Plus(Brought(s, e, slot))
  {
    hide Attainable, PulsePaid, RecruitSettled, BuildSettled, GivenBack, Revenue, LegDone, Judged, Told, Posted,
         Unmoved, Reports;
    var r := s.Without(e);
    assert Brought(r, e, slot) == Brought(s, e, slot);
    OrdersAreFiled(s.a);
    match e.kind {
      case MacroPulse => PulsesBring(r, e, t, slot);
      case RecruitComplete =>
        var order, id :| RecruitSettled(r, e, t, order, id);
        OrdersBring(r, e, t, order, id, slot);
      case ConstructComplete =>
        BuildsBringNothing(r, e, t);
        OtherwiseNothing(s, e, slot);
      case _ => OtherwiseNothing(s, e, slot);
    }
  }

  lemma OtherwiseNothing(s: Snapshot, e: Event, slot: string)
    requires e.kind != MacroPulse && e.kind != RecruitComplete
    ensures forall r: Resources :: r.Plus(Brought(s, e, slot)) == r
  {
    hide StillHolds, Revenue;
  }

  /** What the events of a course bring the slot. */
  ghost function BroughtBy(c: Course, slot: string): Resources
    decreases |c.events|
  {
    if c.events == [] || |c.later| != |c.events| then NOTHING
    else BroughtBy(c.Before(), slot).Plus(Brought(c.Before().Last(), c.events[|c.events| - 1], slot))
  }

  lemma {:induction false} CoursesBring(graph: Graph, c: Course, now: int, slot: string)
    requires c.Ok(graph, now) && Attainable(c.first.a) && slot in c.first.banks
    ensures slot in c.Last().banks && c.Last().banks[slot] == c.first.banks[slot].Plus(BroughtBy(c, slot))
    decreases |c.events|
  {
    hide HandlesNext, Brought, Attainable, Resources.Plus;
    if c.events == [] {
      PlusReassociates(c.first.banks[slot], NOTHING, NOTHING);
    } else {
      CourseBefore(graph, c, now);
      CoursesKeep(graph, c.Before(), now);
      CoursesBring(graph, c.Before(), now, slot);
      var e := c.events[|c.events| - 1];
      OneEventBrings(graph, c.Before().Last(), e, c.Last(), now, slot);
      PlusReassociates(c.first.banks[slot], BroughtBy(c.Before(), slot), Brought(c.Before().Last(), e, slot));
    }
  }

  /** What a turn costs the slot: the price of the order that it gives, if it is accepted. */
  function Cost(input: Input, reply: Reply, slot: string): Resources {
    if !input.Ask? || input.issuer != slot || reply != Accepted then NOTHING
    else if input.command.Recruit? then UnitPrice(input.command.what)
    else if input.command.Construct? then BuildingPrice(input.command.what)
    else NOTHING
  }

  lemma RecruitsCost(s: Snapshot, issuer: string, from: string, what: string, reply: Reply, t: Snapshot, slot: string)
    requires RecruitHandled(s, issuer, from, what, reply, t) && slot in s.banks
    ensures slot in t.banks
    ensures t.banks[slot].Plus(if reply == Accepted && issuer == slot then UnitPrice(what) else NOTHING)
         == s.banks[slot]
  {
    hide RecruitVerdict, UnitPrice, UnitTime, Posted;
  }

  lemma BuildsCost(s: Snapshot, issuer: string, from: string, what: string, reply: Reply, t: Snapshot, slot: string)
    requires ConstructHandled(s, issuer, from, what, reply, t) && slot in s.banks
    ensures slot in t.banks
    ensures t.banks[slot].Plus(if reply == Accepted && issuer == slot then BuildingPrice(what) else NOTHING)
         == s.banks[slot]
  {
    hide ConstructVerdict, BuildingPrice, BuildingTime, Posted;
  }

  lemma OthersCostNothing(graph: Graph, s: Snapshot, issuer: string, c: Command, reply: Reply, t: Snapshot)
    requires Dispatched(graph, s, issuer, c, reply, t)
    requires (!c.Recruit? && !c.Construct?) || !s.a.active || issuer == ""
    ensures t.banks == s.banks && (!s.a.active || issuer == "" ==> reply != Accepted)
  {
    hide Attainable, MoveServed, StrandsByQueueing, DiplomaticVerdict, LedgerAfter, Posted, RecruitHandled,
         ConstructHandled;
  }

  lemma CommandsCost(graph: Graph, s: Snapshot, input: Input, reply: Reply, t: Snapshot, slot: string)
    requires input.Ask? && Dispatched(graph, s, input.issuer, input.command, reply, t) && slot in s.banks
    ensures slot in t.banks && t.banks[slot].Plus(Cost(input, reply, slot)) == s.banks[slot]
  {
    hide Attainable, MoveHandled, RecruitHandled, ConstructHandled, DiplomacyHandled, UnitPrice, BuildingPrice;
    if s.a.active && input.issuer != "" && input.command.Recruit? {
      RecruitsCost(s, input.issuer, input.command.from, input.command.what, reply, t, slot);
    } else if s.a.active && input.issuer != "" && input.command.Construct? {
      BuildsCost(s, input.issuer, input.command.from, input.command.what, reply, t, slot);
    } else {
      OthersCostNothing(graph, s, input.issuer, input.command, reply, t);
    }
  }

  lemma SidesMove(a: Resources, b: Resources, c: Resources, paid: Resources, got: Resources)
    requires b.Plus(paid) == a && c == b.Plus(got)
    ensures c.Plus(paid) == a.Plus(got)
  {
  }

  lemma TurnsBalance(graph: Graph, s: Snapshot, input: Input, turn: Turn, slot: string)
    requires Taken(graph, s, input, turn) && Attainable(s.a) && s.a.busy == {} && s.a.clock <= input.now
    requires slot in s.banks
    ensures var t := turn.course.Last();
            && slot in t.banks
            && t.banks[slot].Plus(Cost(input, turn.reply, slot)) == s.banks[slot].Plus(BroughtBy(turn.course, slot))
  {
    hide Attainable, Dispatched, Course.Ok, Course.Last, BroughtBy, Cost, Resources.Plus;
    Goes(s.a, Tick(input.now));
    var first := turn.course.first;
    if input.Ask? {
      CommandsCost(graph, s.At(input.now), input, turn.reply, first, slot);
      DispatchingIsAttainable(graph, s.At(input.now), input.issuer, input.command, turn.reply, first);
    } else {
      NoCommandNoCost(input, turn.reply, slot);
      PlusReassociates(first.banks[slot], NOTHING, NOTHING);
    }
    CoursesBring(graph, turn.course, input.now, slot);
    SidesMove(s.banks[slot], first.banks[slot], turn.course.Last().banks[slot], Cost(input, turn.reply, slot),
        BroughtBy(turn.course, slot));
  }

  lemma NoCommandNoCost(input: Input, reply: Reply, slot: string)
    requires !input.Ask?
    ensures Cost(input, reply, slot) == NOTHING
  {
  }

  /** What the first n turns have brought the slot, and what they have cost it. */
  ghost function Income(turns: seq<Turn>, slot: string, n: nat): Resources
    requires n <= |turns|
  {
    if n == 0 then NOTHING else Income(turns, slot, n - 1).Plus(BroughtBy(turns[n - 1].course, slot))
  }

  ghost function Expenses(inputs: seq<Input>, turns: seq<Turn>, slot: string, n: nat): Resources
    requires n <= |turns| <= |inputs|
  {
    if n == 0 then NOTHING
    else Expenses(inputs, turns, slot, n - 1).Plus(Cost(inputs[n - 1], turns[n - 1].reply, slot))
  }

  lemma SumsMove(start: Resources, before: Resources, after: Resources, paid: Resources, got: Resources,
                 cost: Resources, brought: Resources)
    requires before.Plus(paid) == start.Plus(got) && after.Plus(cost) == before.Plus(brought)
    ensures after.Plus(paid.Plus(cost)) == start.Plus(got.Plus(brought))
  {
  }

  /** Over every run the books balance, for every slot and every resource: what it has and what it has spent are
      together what it began with and what it has been brought. */
  lemma {:induction false} BooksBalance(graph: Graph, s: Snapshot, inputs: seq<Input>, turns: seq<Turn>, slot: string,
                                        n: nat)
    requires Runs(graph, s, inputs, turns) && n <= |turns| <= |inputs| && Forward(inputs, s.a.clock)
    requires Attainable(s.a) && s.a.busy == {} && slot in s.banks
    ensures var banks := MomentAfter(s, turns, n).banks;
            && slot in banks
            && banks[slot].Plus(Expenses(inputs, turns, slot, n)) == s.banks[slot].Plus(Income(turns, slot, n))
  {
    hide Attainable, Taken, GoesOn, BroughtBy, Cost;
    if n != 0 {
      BooksBalance(graph, s, inputs, turns, slot, n - 1);
      RunsKeep(graph, s, inputs, turns, n - 1);
      assert inputs[n - 1].now >= s.a.clock && (n > 1 ==> inputs[n - 1 - 1].now <= inputs[n - 1].now);
      var before, turn := MomentAfter(s, turns, n - 1), turns[n - 1];
      assert Taken(graph, before, inputs[n - 1], turn);
      TurnsBalance(graph, before, inputs[n - 1], turn, slot);
      SumsMove(s.banks[slot], before.banks[slot], turn.course.Last().banks[slot],
          Expenses(inputs, turns, slot, n - 1), Income(turns, slot, n - 1), Cost(inputs[n - 1], turn.reply, slot),
          BroughtBy(turn.course, slot));
    }
  }
}
