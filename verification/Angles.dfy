/** Turning from one direction towards another, in radians. */
module Angles {

  import opened Arithmetic

  const PI := 3.14159265358979323846
  const CIRCLE := 2.0 * PI

  function Truncated(x: real): int {
    if x >= 0.0 then x.Floor else -(-x).Floor
  }

  /** The remainder of the circle with the sign of the angle. */
  function Mod(angle: real): real {
    angle - Truncated(angle / CIRCLE) as real * CIRCLE
  }

  function DeltaAngle(from: real, to: real): real {
    if Abs(from - to) >= PI then
      if from < to then to - (from + PI * 2.0) else (to + PI * 2.0) - from
    else
      to - from
  }

  function Turned(from: real, to: real, ratio: real): real {
    Mod(from + DeltaAngle(from, to) * ratio)
  }

  /** The same direction, some number of circles apart. */
  predicate Along(a: real, b: real, circles: int) {
    a == b + circles as real * CIRCLE
  }

  /** A direction is reduced to less than a circle either way, and stays the same direction. */
  lemma ModStays(angle: real)
    ensures -CIRCLE < Mod(angle) < CIRCLE
    ensures (angle >= 0.0 ==> Mod(angle) >= 0.0) && (angle <= 0.0 ==> Mod(angle) <= 0.0)
    ensures Along(angle, Mod(angle), Truncated(angle / CIRCLE))
  {
    var q := angle / CIRCLE;
    assert q * CIRCLE == angle;
    var k := Truncated(q);
    assert angle >= 0.0 ==> k as real <= q < k as real + 1.0;
    assert angle <= 0.0 ==> k as real - 1.0 < q <= k as real;
  }

  lemma TurnedStays(from: real, to: real, ratio: real)
    ensures -CIRCLE < Turned(from, to, ratio) < CIRCLE
  {
    ModStays(from + DeltaAngle(from, to) * ratio);
  }

  /** A whole turn ends in the direction turned to. */
  lemma TurnArrives(from: real, to: real) returns (circles: int)
    ensures Along(Turned(from, to, 1.0), to, circles)
  {
    var delta := DeltaAngle(from, to);
    var k := if delta == to - from then 0 else if from < to then -1 else 1;
    assert Along(from + delta, to, k);
    ModStays(from + delta);
    circles := k - Truncated((from + delta) / CIRCLE);
    assert delta * 1.0 == delta;
  }

  lemma TurnedBy(from: real, to: real, ratio: real, way: real)
    requires way == DeltaAngle(from, to)
    ensures Turned(from, to, ratio) == Mod(from + way * ratio)
  {
    hide DeltaAngle, Mod;
  }

  /** A part of a turn goes that part of the way, straight or around the other side, and is the same direction. */
  lemma TurnIsProportional(from: real, to: real, ratio: real) returns (way: real, circles: int)
    ensures way == to - from || way == to - from - CIRCLE || way == to - from + CIRCLE
    ensures -PI < to - from < PI ==> way == to - from
    ensures Along(from + way * ratio, Turned(from, to, ratio), circles)
  {
    way := DeltaAngle(from, to);
    var angle := from + way * ratio;
    TurnedBy(from, to, ratio, way);
    ModStays(angle);
    circles := Truncated(angle / CIRCLE);
    assert Along(angle, Mod(angle), circles);
  }

  /** A turn from one direction to another, of which a part in proportion to the time is done, and some circles. */
  predicate OnTheWay(from: real, to: real, at: real, time: real, whole: real, turn: real, circles: int) {
    (turn == to - from || turn == to - from - CIRCLE || turn == to - from + CIRCLE)
    && (-PI < to - from < PI ==> turn == to - from)
    && (at + circles as real * CIRCLE - from) * whole == turn * time
  }

  ghost predicate TurnsEvenly(from: real, to: real, at: real, time: real, whole: real) {
    exists turn, circles :: OnTheWay(from, to, at, time, whole, turn, circles)
  }

  lemma TurnedEvenly(from: real, to: real, ratio: real, time: real, whole: real)
    requires ratio * whole == time
    ensures TurnsEvenly(from, to, Turned(from, to, ratio), time, whole)
  {
    hide Turned;
    var turn, circles := TurnIsProportional(from, to, ratio);
    assert turn * ratio * whole == turn * (ratio * whole);
    assert OnTheWay(from, to, Turned(from, to, ratio), time, whole, turn, circles);
  }

  /** A turn goes the short way, at most half a circle, exactly when the two angles are at most one and
    * a half circles apart. */
  lemma TurnIsShortIff(from: real, to: real)
    ensures Abs(DeltaAngle(from, to)) <= PI <==> Abs(to - from) <= 3.0 * PI
  {
  }

  /** Directions drawn before may have turned below zero, and so the long way round is taken even when
    * every received direction lies between zero and a circle. */
  lemma LongWayRound()
    ensures Turned(0.0, 1.2 * PI, 1.0) == -0.8 * PI
    ensures Turned(-0.8 * PI, 0.4 * PI, 1.0) == -1.6 * PI
    ensures DeltaAngle(-1.6 * PI, 1.5 * PI) == 1.1 * PI > PI
  {
    assert Truncated(-0.8 * PI / CIRCLE) == 0;
    assert Truncated(-1.6 * PI / CIRCLE) == 0;
  }
}
