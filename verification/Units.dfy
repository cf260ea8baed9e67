/** Units and their motion: a unit's position is a function of game time. */
module Units {
  import opened Clock
  import opened Geometry
  import opened Maps
  import opened Routes

  /** One scheduled movement segment. */
  datatype PathLeg = PathLeg(fromProv: string, toProv: string, from: Vec, to: Vec, arrivesAt: int)

  datatype Unit = Unit(
    id: string, owner: string, kind: string, hp: real,
    origin: string, dest: string, startedAt: int, arrivesAt: int,
    originPos: Vec, destPos: Vec,
    speed: real, version: nat,
    path: seq<PathLeg>, pathIndex: nat, waypoints: seq<Target>)
  {
    /** Some leg of the path is still to be completed. */
    predicate HasLeg() {
      pathIndex < |path|
    }

    function CurrentLeg(): PathLeg
      requires HasLeg()
    {
      path[pathIndex]
    }

    function IsMoving(t: int): bool {
      if HasLeg() then t < path[pathIndex].arrivesAt
      else arrivesAt != 0 && t < arrivesAt && origin != dest
    }

    /** The linear motion equation. */
    function PositionAt(t: int): Vec {
      if HasLeg() then
        var leg := path[pathIndex];
        if t <= startedAt then leg.from
        else if leg.arrivesAt <= t then leg.to
        else Between(leg.from, leg.to, Progress(t, startedAt, leg.arrivesAt))
      else if origin == dest || arrivesAt == 0 then originPos
      else if t <= startedAt then originPos
      else if arrivesAt <= t then destPos
      else Between(originPos, destPos, Progress(t, startedAt, arrivesAt))
    }

    /** What every unit of a running match satisfies. */
    ghost predicate WellFormed() {
      && (path == [] ==> pathIndex == 0 && origin == dest && originPos == destPos)
      && (path != [] ==> HasLeg() && startedAt < arrivesAt == path[pathIndex].arrivesAt && OnLeg(path[pathIndex]))
      && Itinerary(path)
    }

    /** The unit's own record of where it comes from and goes to is that of the leg. */
    predicate OnLeg(leg: PathLeg) {
      originPos == leg.from && destPos == leg.to && origin == leg.fromProv && dest == leg.toProv
    }
  }

  function Progress(t: int, start: int, end: int): (p: real)
    requires start < t < end
    ensures 0.0 < p < 1.0
  {
    ProgressInside((t - start) as real, (end - start) as real);
    (t - start) as real / (end - start) as real
  }

  lemma ProgressInside(a: real, b: real)
    requires 0.0 < a < b
    ensures 0.0 < a / b < 1.0
  {
    var q := a / b;
    assert q * b == a;
    Positive(if q < 0.0 then -q else q, b);
    assert (-q) * b == -a;
    Positive(if 1.0 < q then q - 1.0 else 1.0 - q, b);
    assert (q - 1.0) * b == a - b && (1.0 - q) * b == b - a;
  }

  function Along(x: real, y: real, p: real): real {
    x + (y - x) * p
  }

  function Between(a: Vec, b: Vec, p: real): Vec {
    Vec(Along(a.x, b.x, p), Along(a.y, b.y, p))
  }

  /** Leg i starts where the previous one ends, and arrives at least a millisecond later. */
  ghost predicate SucceedsAt(path: seq<PathLeg>, i: int)
    requires 0 < i < |path|
  {
    && path[i - 1].to == path[i].from && path[i - 1].toProv == path[i].fromProv
    && path[i - 1].arrivesAt + MILLISECOND <= path[i].arrivesAt
  }

  ghost predicate Itinerary(path: seq<PathLeg>) {
    forall i {:trigger SucceedsAt(path, i)} | 0 < i < |path| :: SucceedsAt(path, i)
  }

  /** The duration of a leg: whole seconds, but at least a millisecond; less than a second short of the
      exact time, and never over it but to make up a millisecond. */
  function TravelTime(dist: real, speed: real): (d: int)
    requires speed > 0.0
    ensures MILLISECOND <= d
    ensures d == MILLISECOND || d % SECOND == 0
    ensures dist >= 0.0 ==> d as real <= dist / speed * SECOND as real || d == MILLISECOND
    ensures dist / speed * SECOND as real < (d + SECOND) as real
  {
    var travel := (dist / speed).Floor * SECOND;
    if travel < MILLISECOND then MILLISECOND else travel
  }

  /** A leg as scheduled by a unit that sets out on it at `start`. */
  function Timed(hypot: (real, real) -> real, speed: real, l: Leg, start: int): PathLeg
    requires speed > 0.0
  {
    PathLeg(l.fromProv, l.toProv, l.from, l.to, start + TravelTime(Distance(hypot, l.from, l.to), speed))
  }

  /** When a unit that set out at `now` finishes its path. */
  ghost function Finish(path: seq<PathLeg>, now: int): int {
    if path == [] then now else path[|path| - 1].arrivesAt
  }

  /** The legs as scheduled one after the other from `now`. */
  ghost function Schedule(hypot: (real, real) -> real, speed: real, legs: seq<Leg>, now: int): (path: seq<PathLeg>)
    requires speed > 0.0
    ensures |path| == |legs|
  {
    if legs == [] then [] else
      var before := Schedule(hypot, speed, legs[..|legs| - 1], now);
      before + [Timed(hypot, speed, legs[|legs| - 1], Finish(before, now))]
  }

  lemma {:induction false} ScheduleIsSound(hypot: (real, real) -> real, speed: real, legs: seq<Leg>, now: int)
    requires speed > 0.0 && Chained(legs)
    ensures var path := Schedule(hypot, speed, legs, now);
            && Itinerary(path)
            && (|path| > 0 ==> path[0].from == legs[0].from && now + MILLISECOND <= path[0].arrivesAt)
            && (|path| > 0 ==> path[|path| - 1].to == legs[|legs| - 1].to
                               && path[|path| - 1].toProv == legs[|legs| - 1].toProv)
    decreases |legs|
  {
    if |legs| > 0 {
      var n := |legs| - 1;
      var init, path := legs[..n], Schedule(hypot, speed, legs, now);
      forall i | 0 < i < n
        ensures MeetsAt(init, i)
      {
        assert MeetsAt(legs, i);
      }
      ScheduleIsSound(hypot, speed, init, now);
      var before := Schedule(hypot, speed, init, now);
      forall i | 0 < i < |path|
        ensures SucceedsAt(path, i)
      {
        if i < n {
          assert SucceedsAt(before, i);
        } else {
          assert MeetsAt(legs, n);
        }
      }
    }
  }

  /** SetUnitPath's loop: lay the legs out in time, one after the other. */
  method LayOut(hypot: (real, real) -> real, speed: real, legs: seq<Leg>, now: int) returns (scheduled: seq<PathLeg>)
    requires speed > 0.0
    ensures scheduled == Schedule(hypot, speed, legs, now)
  {
    scheduled := [];
    var cursor := now;
    for i := 0 to |legs|
      invariant scheduled == Schedule(hypot, speed, legs[..i], now) && cursor == Finish(scheduled, now)
    {
      var l := legs[i];
      var dist := Distance(hypot, l.from, l.to);
      var travel := (dist / speed).Floor * SECOND;
      if travel < MILLISECOND {
        travel := MILLISECOND;
      }
      var arrives := cursor + travel;
      scheduled := scheduled + [PathLeg(l.fromProv, l.toProv, l.from, l.to, arrives)];
      cursor := arrives;
      assert legs[..i + 1][..i] == legs[..i];
    }
    assert legs[..|legs|] == legs;
  }

  /** beginCurrentLeg: head for the end of the current leg. */
  function BeginLeg(u: Unit, now: int): Unit {
    if !u.HasLeg() then u
    else
      var leg := u.CurrentLeg();
      u.(origin := leg.fromProv, dest := leg.toProv, originPos := leg.from, destPos := leg.to,
         startedAt := if leg.arrivesAt < now then leg.arrivesAt else now, arrivesAt := leg.arrivesAt)
  }

  /** The unit at rest where its current leg ends. */
  function EndLeg(u: Unit, at: int): Unit
    requires u.HasLeg()
  {
    var leg := u.CurrentLeg();
    u.(originPos := leg.to, destPos := leg.to, origin := leg.toProv, dest := leg.toProv,
       startedAt := at, arrivesAt := at)
  }

  function Halted(u: Unit): Unit {
    u.(path := [], pathIndex := 0)
  }

  /** At the moment a leg is completed, the unit is in the same place before and after the
      switch to its next leg. */
  lemma LegSwitchIsContinuous(u: Unit, at: int)
    requires u.WellFormed() && u.HasLeg() && at == u.CurrentLeg().arrivesAt
    requires u.pathIndex + 1 < |u.path|
    ensures var u' := BeginLeg(EndLeg(u, at).(pathIndex := u.pathIndex + 1), at);
            u'.WellFormed() && u'.PositionAt(at) == u.PositionAt(at) && u'.startedAt == at
  {
    assert SucceedsAt(u.path, u.pathIndex + 1);
  }

  /** And the same when the leg was its last. */
  lemma HaltIsContinuous(u: Unit, at: int)
    requires u.WellFormed() && u.HasLeg() && at == u.CurrentLeg().arrivesAt
    ensures Halted(EndLeg(u, at)).WellFormed()
    ensures forall t :: Halted(EndLeg(u, at)).PositionAt(t) == u.PositionAt(at)
  {
  }

  /** Giving a unit a new path. */
  function WithPath(u: Unit, path: seq<PathLeg>, now: int): Unit {
    BeginLeg(u.(path := path, pathIndex := 0), now)
  }

  /** A new path keeps the unit where it is exactly when the path starts there. */
  lemma NewPathIsContinuous(u: Unit, path: seq<PathLeg>, now: int)
    requires path != [] && Itinerary(path) && now + MILLISECOND <= path[0].arrivesAt
    ensures WithPath(u, path, now).WellFormed()
    ensures WithPath(u, path, now).PositionAt(now) == path[0].from
    ensures WithPath(u, path, now).startedAt == now < WithPath(u, path, now).arrivesAt
  {
  }
}
