/** The laws of motion: where a unit is at every moment, and how long it takes, without the formulas that
    compute it. */
module Motions {
  import opened Clock
  import opened Geometry
  import opened Maps
  import opened Routes
  import opened Units

  /** p divides the way from a to b as `passed` divides `whole`. */
  ghost predicate Divides(a: Vec, b: Vec, p: Vec, passed: int, whole: int) {
    && (p.x - a.x) * whole as real == (b.x - a.x) * passed as real
    && (p.y - a.y) * whole as real == (b.y - a.y) * passed as real
  }

  lemma ProgressDivides(x: real, y: real, p: real, passed: real, whole: real)
    requires p * whole == passed
    ensures (Along(x, y, p) - x) * whole == (y - x) * passed
  {
    Associates(y - x, p, whole);
  }

  lemma BetweenDivides(a: Vec, b: Vec, t: int, start: int, end: int)
    requires start < t < end
    ensures Divides(a, b, Between(a, b, Progress(t, start, end)), t - start, end - start)
  {
    hide Along;
    var p := Progress(t, start, end);
    assert p * (end - start) as real == (t - start) as real;
    ProgressDivides(a.x, b.x, p, (t - start) as real, (end - start) as real);
    ProgressDivides(a.y, b.y, p, (t - start) as real, (end - start) as real);
  }

  /** In flight, the part of the way behind a unit is to the whole way as the time passed is to the whole time;
      before it sets out it is where the leg starts, and from its arrival on where the leg ends. */
  lemma MotionIsUniform(u: Unit, t: int)
    requires u.HasLeg()
    ensures var leg, p := u.CurrentLeg(), u.PositionAt(t);
            && (t <= u.startedAt ==> p == leg.from)
            && (u.startedAt < t && leg.arrivesAt <= t ==> p == leg.to)
            && (u.startedAt <= t <= leg.arrivesAt ==>
                  Divides(leg.from, leg.to, p, t - u.startedAt, leg.arrivesAt - u.startedAt))
  {
    hide Progress, Between;
    var leg := u.CurrentLeg();
    if u.startedAt < t < leg.arrivesAt {
      BetweenDivides(leg.from, leg.to, t, u.startedAt, leg.arrivesAt);
    }
  }

  /** The same for a unit that has no legs but a record of where it comes from and goes to. */
  lemma MotionWithoutLegs(u: Unit, t: int)
    requires !u.HasLeg()
    ensures u.origin == u.dest || u.arrivesAt == 0 ==> u.PositionAt(t) == u.originPos
    ensures u.origin != u.dest && u.arrivesAt != 0 ==>
        && (t <= u.startedAt ==> u.PositionAt(t) == u.originPos)
        && (u.startedAt < t && u.arrivesAt <= t ==> u.PositionAt(t) == u.destPos)
        && (u.startedAt <= t <= u.arrivesAt ==>
              Divides(u.originPos, u.destPos, u.PositionAt(t), t - u.startedAt, u.arrivesAt - u.startedAt))
  {
    hide Progress, Between;
    if u.startedAt < t < u.arrivesAt {
      BetweenDivides(u.originPos, u.destPos, t, u.startedAt, u.arrivesAt);
    }
  }

  /** Two points of one way. */
  lemma PartsOfAWay(a: real, b: real, p: real, q: real, first: real, second: real, whole: real)
    requires (p - a) * whole == (b - a) * first && (q - a) * whole == (b - a) * second
    ensures (p - q) * whole == (a - b) * (second - first)
  {
    assert (p - q) * whole == (p - a) * whole - (q - a) * whole;
    assert (b - a) * first - (b - a) * second == (a - b) * (second - first);
  }

  lemma DistancesDivide(hypot: (real, real) -> real, a: Vec, b: Vec, p: Vec, q: Vec, first: int, second: int,
      whole: int)
    requires IsHypot(hypot) && Divides(a, b, p, first, whole) && Divides(a, b, q, second, whole)
    requires first <= second && 0 <= whole
    ensures Distance(hypot, p, q) * whole as real == Distance(hypot, a, b) * (second - first) as real
  {
    hide IsHypot;
    var f, s, w := first as real, second as real, whole as real;
    PartsOfAWay(a.x, b.x, p.x, q.x, f, s, w);
    PartsOfAWay(a.y, b.y, p.y, q.y, f, s, w);
    assert (second - first) as real == s - f;
    HypotScales(hypot, a.x - b.x, a.y - b.y, s - f, p.x - q.x, p.y - q.y, w);
  }

  /** So the distance covered between two moments of a leg is in proportion to the time between them: a unit
      neither jumps nor changes its speed on the way. */
  lemma SpeedIsConstant(hypot: (real, real) -> real, u: Unit, s: int, t: int)
    requires IsHypot(hypot) && u.HasLeg() && u.startedAt <= s <= t <= u.CurrentLeg().arrivesAt
    ensures Distance(hypot, u.PositionAt(s), u.PositionAt(t)) * (u.CurrentLeg().arrivesAt - u.startedAt) as real
         == Distance(hypot, u.CurrentLeg().from, u.CurrentLeg().to) * (t - s) as real
  {
    hide IsHypot, Unit.PositionAt, Divides, Distance;
    MotionIsUniform(u, s);
    MotionIsUniform(u, t);
    DistancesDivide(hypot, u.CurrentLeg().from, u.CurrentLeg().to, u.PositionAt(s), u.PositionAt(t),
        s - u.startedAt, t - u.startedAt, u.CurrentLeg().arrivesAt - u.startedAt);
  }

  /** A unit on a leg between different points is in flight, from its start on, as long as it has not come to the
      end of it. */
  lemma MovingIsNotThereYet(u: Unit, t: int)
    requires u.HasLeg() && u.startedAt < u.CurrentLeg().arrivesAt && u.CurrentLeg().from != u.CurrentLeg().to
    ensures u.IsMoving(t) <==> u.PositionAt(t) != u.CurrentLeg().to
  {
    hide Unit.PositionAt;
    var leg := u.CurrentLeg();
    MotionIsUniform(u, t);
    if u.startedAt <= t < leg.arrivesAt && u.PositionAt(t) == leg.to {
      NoWholeWay(leg.to.x - leg.from.x, t - u.startedAt, leg.arrivesAt - u.startedAt);
      NoWholeWay(leg.to.y - leg.from.y, t - u.startedAt, leg.arrivesAt - u.startedAt);
    }
  }

  lemma NoWholeWay(d: real, passed: int, whole: int)
    requires passed < whole && d * whole as real == d * passed as real
    ensures d == 0.0
  {
    var rest := (whole - passed) as real;
    assert d * rest == d * whole as real - d * passed as real;
    if d != 0.0 {
      ProductIsPositive(if d < 0.0 then -d else d, rest, (if d < 0.0 then -d else d) * rest);
    }
  }

  /** The same for a unit without legs. */
  lemma GoingIsNotThereYet(u: Unit, t: int)
    requires !u.HasLeg() && u.startedAt < u.arrivesAt && u.originPos != u.destPos
    requires u.origin != u.dest && u.arrivesAt != 0
    ensures u.IsMoving(t) <==> u.PositionAt(t) != u.destPos
  {
    hide Unit.PositionAt;
    MotionWithoutLegs(u, t);
    if u.startedAt <= t < u.arrivesAt && u.PositionAt(t) == u.destPos {
      NoWholeWay(u.destPos.x - u.originPos.x, t - u.startedAt, u.arrivesAt - u.startedAt);
      NoWholeWay(u.destPos.y - u.originPos.y, t - u.startedAt, u.arrivesAt - u.startedAt);
    }
  }

  /** And a unit that is not in flight stays where it is for good. */
  lemma RestingIsStaying(u: Unit, t: int, later: int)
    requires u.WellFormed() && !u.IsMoving(t) && t <= later && (u.HasLeg() ==> u.startedAt <= t)
    ensures u.PositionAt(later) == u.PositionAt(t)
  {
  }

  // ---------- how long it takes ----------

  /** A unit of this speed covers the distance in d, less than a second short of the exact time, and not late
      but to make up a millisecond. */
  ghost predicate OnTime(dist: real, speed: real, d: int)
    requires speed > 0.0
  {
    && MILLISECOND as real <= d as real && (d as real - dist / speed * SECOND as real <= 0.0 || d == MILLISECOND)
    && dist / speed * SECOND as real - d as real < SECOND as real
  }

  /** Every leg of a schedule is a leg of the route, and takes its time. */
  lemma {:induction false} LegsAreOnTime(hypot: (real, real) -> real, speed: real, legs: seq<Leg>, now: int, i: nat)
    requires speed > 0.0 && IsHypot(hypot) && i < |legs|
    ensures var path := Schedule(hypot, speed, legs, now);
            && path[i] == PathLeg(legs[i].fromProv, legs[i].toProv, legs[i].from, legs[i].to, path[i].arrivesAt)
            && OnTime(Distance(hypot, legs[i].from, legs[i].to), speed,
                 path[i].arrivesAt - (if i == 0 then now else path[i - 1].arrivesAt))
    decreases |legs|
  {
    var n := |legs| - 1;
    var path, before := Schedule(hypot, speed, legs, now), Schedule(hypot, speed, legs[..n], now);
    if i < n {
      LegsAreOnTime(hypot, speed, legs[..n], now, i);
    } else {
      assert path[i] == Timed(hypot, speed, legs[i], Finish(before, now));
      assert 0.0 <= Distance(hypot, legs[i].from, legs[i].to);
    }
  }
}
