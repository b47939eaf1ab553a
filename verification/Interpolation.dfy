/** Remote entities are drawn between the last drawn frame and the next received one. */
module Interpolation {

  import opened Angles
  import opened Arithmetic
  import opened Options

  datatype Vec3 = Vec3(x: real, y: real, z: real)

  /** A received or drawn frame; ticks are unsigned 64-bit milliseconds. */
  datatype Frame = Frame(position: Vec3, rotation: Vec3, speed: real, tick: nat)

  /** What the engine can do with the entity: draw it as a vehicle, as a puppet, or not at all. */
  datatype Target = Absent | Vehicle | Puppet

  const WRAP: nat := 0x1_0000_0000_0000_0000

  function Lerp(a: real, b: real, delta: real): real {
    a + Times(b - a, delta)
  }

  function LerpVec(a: Vec3, b: Vec3, delta: real): Vec3 {
    Vec3(Lerp(a.x, b.x, delta), Lerp(a.y, b.y, delta), Lerp(a.z, b.z, delta))
  }

  /** A vehicle turns about all axes, a puppet about the upright one. */
  function TurnVec(a: Vec3, b: Vec3, delta: real, target: Target): Vec3 {
    if target == Vehicle then Vec3(Turned(a.x, b.x, delta), Turned(a.y, b.y, delta), Turned(a.z, b.z, delta))
    else Vec3(0.0, 0.0, Turned(a.z, b.z, delta))
  }

  /** Subtraction of unsigned 64-bit ticks. */
  function Minus64(a: nat, b: nat): nat {
    (a - b) % 0x1_0000_0000_0000_0000
  }

  function Ratio(first: Frame, second: Frame, tick: real): real {
    var tickDelta := Minus64(second.tick, first.tick) as real;
    if tickDelta > 0.0 then Times(Quotient(1.0, tickDelta), tick - first.tick as real) else 0.0001
  }

  /** The queue without the points that lie before the render tick. */
  function Popped(queue: seq<Frame>, tick: real): seq<Frame> {
    if queue != [] && tick > queue[0].tick as real then Popped(queue[1..], tick) else queue
  }

  function Drawn(first: Frame, second: Frame, tick: real, target: Target): Frame
    requires tick >= 0.0
  {
    var ratio := Ratio(first, second, tick);
    Frame(LerpVec(first.position, second.position, ratio),
          TurnVec(first.rotation, second.rotation, ratio, target),
          if target == Puppet then Lerp(first.speed, second.speed, ratio) else 0.0,
          tick.Floor)
  }

  // ----- The buffer as a value

  datatype State = State(queue: seq<Frame>, previous: Frame)

  datatype Event =
    | Move(frame: Frame)
    | Render(tick: real, target: Target)

  /** There is a point to draw towards, and the engine can draw. */
  predicate CanDraw(s: State, e: Event) {
    e.Render? && Popped(s.queue, e.tick) != [] && e.target != Absent
  }

  /** A drawn frame carries its render tick as an unsigned number, for which the tick must not be negative. */
  predicate Allowed(s: State, e: Event) {
    CanDraw(s, e) ==> e.tick >= 0.0
  }

  /** The frame an event draws, if it draws one. */
  function Draws(s: State, e: Event): Option<Frame>
    requires Allowed(s, e)
  {
    if CanDraw(s, e) then Some(Drawn(s.previous, Popped(s.queue, e.tick)[0], e.tick, e.target)) else None
  }

  function Next(s: State, e: Event): State
    requires Allowed(s, e)
  {
    match e
    case Move(frame) =>
      if s.queue != [] && s.queue[|s.queue| - 1].tick > frame.tick then s
      else s.(queue := s.queue + [frame])
    case Render(tick, _) =>
      var drawn := Draws(s, e);
      State(Popped(s.queue, tick), if drawn.Some? then drawn.value else s.previous)
  }

  // ----- The buffer as an object

  class InterpolationComponent {
    var TimePoints: seq<Frame>
    var PreviousFrame: Frame

    ghost function Contents(): State
      reads this
    {
      State(TimePoints, PreviousFrame)
    }

    constructor ()
      ensures Contents() == State([], Frame(Vec3(0.0, 0.0, 0.0), Vec3(0.0, 0.0, 0.0), 0.0, 0))
    {
      TimePoints := [];
      PreviousFrame := Frame(Vec3(0.0, 0.0, 0.0), Vec3(0.0, 0.0, 0.0), 0.0, 0);
    }

    method InterpolateEntity(currentTick: nat, simulationDelay: real, target: Target) returns (drawn: Option<Frame>)
      requires Allowed(Contents(), Render(currentTick as real - simulationDelay, target))
      modifies this
      ensures var e := Render(currentTick as real - simulationDelay, target);
              Contents() == Next(old(Contents()), e) && drawn == Draws(old(Contents()), e)
    {
      var tick := currentTick as real - simulationDelay;
      while TimePoints != []
        invariant Popped(TimePoints, tick) == Popped(old(TimePoints), tick)
        invariant PreviousFrame == old(PreviousFrame)
        decreases |TimePoints|
      {
        var future := TimePoints[0];
        if tick > future.tick as real {
          TimePoints := TimePoints[1..];
        } else {
          break;
        }
      }
      if TimePoints == [] {
        return None;
      }
      var first, second := PreviousFrame, TimePoints[0];
      var ratio := 0.0001;
      var tickDelta := Minus64(second.tick, first.tick) as real;
      if tickDelta > 0.0 {
        ratio := Times(Quotient(1.0, tickDelta), tick - first.tick as real);
      }
      if target == Absent {
        return None;
      }
      var position := LerpVec(first.position, second.position, ratio);
      if target == Vehicle {
        var directionX := Turned(first.rotation.x, second.rotation.x, ratio);
        var directionY := Turned(first.rotation.y, second.rotation.y, ratio);
        var directionZ := Turned(first.rotation.z, second.rotation.z, ratio);
        PreviousFrame := Frame(position, Vec3(directionX, directionY, directionZ), 0.0, tick.Floor);
      } else {
        var speed := Lerp(first.speed, second.speed, ratio);
        var direction := Turned(first.rotation.z, second.rotation.z, ratio);
        PreviousFrame := Frame(position, Vec3(0.0, 0.0, direction), speed, tick.Floor);
      }
      return Some(PreviousFrame);
    }
  }

  class InterpolationSystem {
    /** The component of each entity that has one. */
    var components: map<nat, InterpolationComponent>

    constructor ()
      ensures Apart() && Contents() == map[]
    {
      components := map[];
    }

    ghost predicate Apart()
      reads this
    {
      forall i <- components, j <- components :: i != j ==> components[i] != components[j]
    }

    ghost function Contents(): map<nat, State>
      reads this, components.Values
    {
      map i | i in components :: components[i].Contents()
    }

    /** A frame is queued unless it is older than the newest. An entity that is not there, or has no
      * component yet, takes none. */
    method HandleNotifyEntityMove(id: nat, frame: Frame)
      requires Apart()
      modifies components.Values
      ensures Apart()
      ensures var before := old(Contents());
              Contents() == if id in before then before[id := Next(before[id], Move(frame))] else before
    {
      if id !in components {
        return;
      }
      var component := components[id];
      var points := component.TimePoints;
      if points == [] || points[|points| - 1].tick <= frame.tick {
        component.TimePoints := points + [frame];
      }
      assert Contents() == old(Contents())[id := component.Contents()];
    }
  }

  // ----- What holds in every state

  predicate Sorted(queue: seq<Frame>) {
    forall i, j :: 0 <= i < j < |queue| ==> queue[i].tick <= queue[j].tick
  }

  /** The queue is sorted and the frame last drawn is no later than the last render tick. */
  predicate Good(s: State, last: real) {
    Sorted(s.queue)
    && (s.previous.tick as real) <= last
    && s.previous.tick < WRAP
    && forall f <- s.queue :: f.tick < WRAP
  }

  lemma {:induction false} PoppedIsSuffix(queue: seq<Frame>, tick: real) returns (k: nat)
    ensures k <= |queue| && Popped(queue, tick) == queue[k..]
    ensures forall i :: 0 <= i < k ==> (queue[i].tick as real) < tick
    ensures k < |queue| ==> tick <= queue[k].tick as real
  {
    k := 0;
    if queue != [] && tick > queue[0].tick as real {
      k := PoppedIsSuffix(queue[1..], tick);
      assert queue[1..][k..] == queue[k + 1..];
      forall i | 0 <= i < k + 1 ensures (queue[i].tick as real) < tick {
        if i > 0 {
          assert queue[i] == queue[1..][i - 1];
        }
      }
      k := k + 1;
    }
  }

  lemma FloorFits(tick: real, bound: nat)
    requires 0.0 <= tick <= bound as real
    ensures 0 <= tick.Floor <= bound && tick.Floor as real <= tick
  {
  }

  /** Between the frame last drawn and the next received one, the subtraction does not wrap,
    * and the ratio is a genuine fraction of the way. */
  lemma RatioIsFraction(first: Frame, second: Frame, tick: real)
    requires (first.tick as real) <= tick <= (second.tick as real) && second.tick < WRAP
    ensures Minus64(second.tick, first.tick) == second.tick - first.tick
    ensures 0.0 <= Ratio(first, second, tick) <= 1.0
    ensures second.tick > first.tick ==>
              Ratio(first, second, tick) == Quotient(tick - first.tick as real, (second.tick - first.tick) as real)
  {
    assert first.tick <= second.tick;
    var d := (second.tick - first.tick) as real;
    assert d == second.tick as real - first.tick as real;
    if d > 0.0 {
      QuotientIsFraction(tick - first.tick as real, d);
    }
  }

  lemma QuotientIsFraction(x: real, d: real)
    requires 0.0 <= x <= d && d > 0.0
    ensures Times(Quotient(1.0, d), x) == Quotient(x, d)
    ensures 0.0 <= Quotient(x, d) <= 1.0
  {
    var q := Quotient(x, d);
    assert q * d == x;
    QuotientUnique(Times(Quotient(1.0, d), x), x, d);
    assert q < 0.0 ==> q * d < 0.0;
    assert q > 1.0 ==> (q - 1.0) * d > 0.0;
  }

  lemma QuotientUnique(q: real, x: real, d: real)
    requires d > 0.0 && q * d == x
    ensures q == Quotient(x, d)
  {
  }

  // ----- Half-spaces, and so every convex region

  datatype HalfSpace = HalfSpace(a: real, b: real, c: real, bound: real)

  function Height(h: HalfSpace, v: Vec3): real {
    Times(h.a, v.x) + Times(h.b, v.y) + Times(h.c, v.z)
  }

  predicate Inside(h: HalfSpace, v: Vec3) {
    Height(h, v) <= h.bound
  }

  lemma LerpScales(a: real, x: real, y: real, delta: real)
    ensures Times(a, Lerp(x, y, delta)) == Lerp(Times(a, x), Times(a, y), delta)
  {
  }

  lemma LerpAdds(x: real, y: real, u: real, v: real, delta: real)
    ensures Lerp(x, y, delta) + Lerp(u, v, delta) == Lerp(x + u, y + v, delta)
  {
  }

  lemma LerpStays(x: real, y: real, delta: real, bound: real)
    requires 0.0 <= delta <= 1.0
    ensures x <= bound && y <= bound ==> Lerp(x, y, delta) <= bound
    ensures x >= bound && y >= bound ==> Lerp(x, y, delta) >= bound
  {
    var near, far := Times(x - bound, 1.0 - delta), Times(y - bound, delta);
    assert Lerp(x, y, delta) - bound == near + far;
    TimesSign(x - bound, 1.0 - delta);
    TimesSign(y - bound, delta);
  }

  /** A point a fraction of the way between two points stays in every half-space both lie in. */
  lemma LerpStaysInside(h: HalfSpace, v: Vec3, w: Vec3, delta: real)
    requires 0.0 <= delta <= 1.0 && Inside(h, v) && Inside(h, w)
    ensures Inside(h, LerpVec(v, w, delta))
  {
    hide Times, Lerp;
    LerpScales(h.a, v.x, w.x, delta);
    LerpScales(h.b, v.y, w.y, delta);
    LerpScales(h.c, v.z, w.z, delta);
    LerpAdds(Times(h.a, v.x), Times(h.a, w.x), Times(h.b, v.y), Times(h.b, w.y), delta);
    LerpAdds(Times(h.a, v.x) + Times(h.b, v.y), Times(h.a, w.x) + Times(h.b, w.y),
             Times(h.c, v.z), Times(h.c, w.z), delta);
    LerpStays(Height(h, v), Height(h, w), delta, h.bound);
  }

  // ----- One event

  /** Render ticks never go back, are not negative, and received ticks fit 64 bits. */
  predicate Fits(e: Event, last: real) {
    match e
    case Move(frame) => frame.tick < WRAP
    case Render(tick, _) => 0.0 <= tick && last <= tick
  }

  function Last(e: Event, last: real): real {
    if e.Render? then e.tick else last
  }

  /** An event keeps the queue sorted, and after a render nothing in it is older than the render tick.
    * A drawn frame carries the render tick's whole milliseconds, and is drawn a genuine fraction of the
    * way from the frame drawn before to the next received one, with no unsigned wrap. */
  lemma NextIsGood(s: State, e: Event, last: real)
    requires Good(s, last) && Fits(e, last)
    ensures Good(Next(s, e), Last(e, last))
    ensures e.Render? ==> forall f <- Next(s, e).queue :: e.tick <= f.tick as real
    ensures Draws(s, e).Some? ==>
              var first, second := s.previous, Popped(s.queue, e.tick)[0];
              (first.tick as real) <= e.tick <= (second.tick as real) && second.tick < WRAP
              && second in s.queue
              && 0.0 <= Ratio(first, second, e.tick) <= 1.0
              && Draws(s, e).value == Drawn(first, second, e.tick, e.target)
              && Draws(s, e).value.tick == e.tick.Floor
  {
    if e.Render? {
      RenderIsGood(s, e, last);
    } else {
      MoveIsGood(s, e.frame, last);
    }
    hide Good, Next, Ratio;
  }

  lemma MoveIsGood(s: State, frame: Frame, last: real)
    requires Good(s, last) && frame.tick < WRAP
    ensures Good(Next(s, Move(frame)), last)
  {
    var t := Next(s, Move(frame));
    assert forall f <- t.queue :: f in s.queue || f == frame;
  }

  lemma RenderIsGood(s: State, e: Event, last: real)
    requires e.Render? && Good(s, last) && Fits(e, last)
    ensures Good(Next(s, e), e.tick)
    ensures forall f <- Next(s, e).queue :: e.tick <= f.tick as real
    ensures Draws(s, e).Some? ==>
              var first, second := s.previous, Popped(s.queue, e.tick)[0];
              (first.tick as real) <= e.tick <= (second.tick as real) && second.tick < WRAP
              && second in s.queue
              && 0.0 <= Ratio(first, second, e.tick) <= 1.0
              && Draws(s, e).value == Drawn(first, second, e.tick, e.target)
              && Draws(s, e).value.tick == e.tick.Floor
  {
    hide Ratio, LerpVec, TurnVec;
    var k := PoppedIsSuffix(s.queue, e.tick);
    if k < |s.queue| {
      FloorFits(e.tick, s.queue[k].tick);
      RatioIsFraction(s.previous, s.queue[k], e.tick);
    }
  }

  /** Every frame an event can draw from lies in the half-space, and has a speed between the bounds. */
  predicate Confined(s: State, h: HalfSpace, lo: real, hi: real) {
    Held(s.previous, h, lo, hi) && forall f <- s.queue :: Held(f, h, lo, hi)
  }

  predicate Held(f: Frame, h: HalfSpace, lo: real, hi: real) {
    Inside(h, f.position) && lo <= f.speed <= hi
  }

  lemma NextIsConfined(s: State, e: Event, last: real, h: HalfSpace, lo: real, hi: real)
    requires Good(s, last) && Fits(e, last) && Confined(s, h, lo, hi) && lo <= 0.0 <= hi
    requires e.Move? ==> Held(e.frame, h, lo, hi)
    ensures Confined(Next(s, e), h, lo, hi)
    ensures Draws(s, e).Some? ==> Held(Draws(s, e).value, h, lo, hi)
  {
    hide Inside, Ratio, LerpVec, Lerp;
    NextIsGood(s, e, last);
    if e.Render? {
      var k := PoppedIsSuffix(s.queue, e.tick);
      if Draws(s, e).Some? {
        var first, second := s.previous, s.queue[k];
        var ratio := Ratio(first, second, e.tick);
        LerpStaysInside(h, first.position, second.position, ratio);
        LerpStays(first.speed, second.speed, ratio, lo);
        LerpStays(first.speed, second.speed, ratio, hi);
      }
    } else {
      assert forall f <- Next(s, e).queue :: f in s.queue || f == e.frame;
    }
  }

  // ----- Runs

  /** Events that arrive in an order the client produces: render ticks never go back. */
  predicate Timely(events: seq<Event>, last: real) {
    events == [] || (Fits(events[0], last) && Timely(events[1..], Last(events[0], last)))
  }

  /** The frames drawn over a run. */
  function AllDrawn(s: State, events: seq<Event>, last: real): seq<Frame>
    requires Timely(events, last)
    decreases |events|
  {
    if events == [] then []
    else
      var drawn := Draws(s, events[0]);
      (if drawn.Some? then [drawn.value] else []) + AllDrawn(Next(s, events[0]), events[1..], Last(events[0], last))
  }

  function Run(s: State, events: seq<Event>, last: real): State
    requires Timely(events, last)
    decreases |events|
  {
    if events == [] then s else Run(Next(s, events[0]), events[1..], Last(events[0], last))
  }

  /** Over every run, the queue stays sorted and every drawn position lies in every half-space that
    * holds the initial frame and all received positions: in their convex hull, and so in their
    * bounding box. The speeds stay between bounds for the initial and received speeds and zero. */
  lemma {:induction false} DrawingsAreConfined(s: State, events: seq<Event>, last: real,
                                               h: HalfSpace, lo: real, hi: real)
    requires Timely(events, last) && Good(s, last) && Confined(s, h, lo, hi) && lo <= 0.0 <= hi
    requires forall e <- events :: e.Move? ==> Held(e.frame, h, lo, hi)
    ensures Sorted(Run(s, events, last).queue)
    ensures forall f <- AllDrawn(s, events, last) :: Held(f, h, lo, hi)
    decreases |events|
  {
    if events != [] {
      hide Next, Draws, Confined, Good, Held;
      var e := events[0];
      assert e in events;
      NextIsGood(s, e, last);
      NextIsConfined(s, e, last, h, lo, hi);
      DrawingsAreConfined(Next(s, e), events[1..], Last(e, last), h, lo, hi);
    }
    assert Sorted(s.queue);
  }

  lemma FloorKeepsOrder(x: real, y: real)
    requires x <= y
    ensures x.Floor <= y.Floor
  {
  }

  /** Ticks that never decrease, from a bound on. */
  predicate AscendFrom(drawn: seq<Frame>, low: int) {
    (forall i :: 0 <= i < |drawn| ==> low <= drawn[i].tick)
    && (forall i, j :: 0 <= i < j < |drawn| ==> drawn[i].tick <= drawn[j].tick)
  }

  lemma AscendMore(f: Frame, drawn: seq<Frame>, low: int)
    requires AscendFrom(drawn, f.tick) && low <= f.tick
    ensures AscendFrom([f] + drawn, low)
  {
  }

  /** Over every run, the ticks of the frames drawn never decrease. */
  lemma {:induction false} DrawnTicksAscend(s: State, events: seq<Event>, last: real)
    requires Timely(events, last) && Good(s, last)
    ensures AscendFrom(AllDrawn(s, events, last), last.Floor)
    decreases |events|
  {
    if events != [] {
      var e := events[0];
      NextIsGood(s, e, last);
      FloorKeepsOrder(last, Last(e, last));
      DrawnTicksAscend(Next(s, e), events[1..], Last(e, last));
      var rest := AllDrawn(Next(s, e), events[1..], Last(e, last));
      if Draws(s, e).Some? {
        AscendMore(Draws(s, e).value, rest, last.Floor);
      }
      hide Next, Draws, Good;
    }
  }

  datatype Box = Box(low: Vec3, high: Vec3)

  predicate InBox(b: Box, v: Vec3) {
    b.low.x <= v.x <= b.high.x && b.low.y <= v.y <= b.high.y && b.low.z <= v.z <= b.high.z
  }

  lemma BoxIsHalfSpaces(b: Box, v: Vec3)
    ensures Inside(HalfSpace(1.0, 0.0, 0.0, b.high.x), v) <==> v.x <= b.high.x
    ensures Inside(HalfSpace(0.0, 1.0, 0.0, b.high.y), v) <==> v.y <= b.high.y
    ensures Inside(HalfSpace(0.0, 0.0, 1.0, b.high.z), v) <==> v.z <= b.high.z
    ensures Inside(HalfSpace(-1.0, 0.0, 0.0, -b.low.x), v) <==> v.x >= b.low.x
    ensures Inside(HalfSpace(0.0, -1.0, 0.0, -b.low.y), v) <==> v.y >= b.low.y
    ensures Inside(HalfSpace(0.0, 0.0, -1.0, -b.low.z), v) <==> v.z >= b.low.z
  {
  }

  predicate HeldInBox(f: Frame, b: Box, lo: real, hi: real) {
    InBox(b, f.position) && lo <= f.speed <= hi
  }

  function Sides(b: Box): (sides: seq<HalfSpace>)
    ensures |sides| == 6
  {
    [HalfSpace(1.0, 0.0, 0.0, b.high.x), HalfSpace(0.0, 1.0, 0.0, b.high.y), HalfSpace(0.0, 0.0, 1.0, b.high.z),
     HalfSpace(-1.0, 0.0, 0.0, -b.low.x), HalfSpace(0.0, -1.0, 0.0, -b.low.y), HalfSpace(0.0, 0.0, -1.0, -b.low.z)]
  }

  lemma BoxIsSides(b: Box, v: Vec3)
    ensures InBox(b, v) <==> forall k :: 0 <= k < 6 ==> Inside(Sides(b)[k], v)
  {
    BoxIsHalfSpaces(b, v);
    var sides := Sides(b);
    hide Inside;
    if forall k :: 0 <= k < 6 ==> Inside(sides[k], v) {
      assert Inside(sides[0], v) && Inside(sides[1], v) && Inside(sides[2], v);
      assert Inside(sides[3], v) && Inside(sides[4], v) && Inside(sides[5], v);
    }
  }

  /** Every frame drawn from a buffer inside a box, fed from inside the box, is inside the box. */
  lemma DrawingsStayInBox(s: State, events: seq<Event>, last: real, b: Box, lo: real, hi: real)
    requires Timely(events, last) && Good(s, last) && lo <= 0.0 <= hi
    requires HeldInBox(s.previous, b, lo, hi) && forall f <- s.queue :: HeldInBox(f, b, lo, hi)
    requires forall e <- events :: e.Move? ==> HeldInBox(e.frame, b, lo, hi)
    ensures forall f <- AllDrawn(s, events, last) :: HeldInBox(f, b, lo, hi)
  {
    hide Inside, InBox, Sides;
    var drawn := AllDrawn(s, events, last);
    forall k | 0 <= k < 6
      ensures forall f <- drawn :: Held(f, Sides(b)[k], lo, hi)
    {
      var h := Sides(b)[k];
      BoxIsSides(b, s.previous.position);
      forall f <- s.queue ensures Held(f, h, lo, hi) {
        BoxIsSides(b, f.position);
      }
      forall e <- events | e.Move? ensures Held(e.frame, h, lo, hi) {
        BoxIsSides(b, e.frame.position);
      }
      DrawingsAreConfined(s, events, last, h, lo, hi);
    }
    forall f <- drawn ensures HeldInBox(f, b, lo, hi) {
      assert Held(f, Sides(b)[0], lo, hi);
      BoxIsSides(b, f.position);
    }
  }

  // ----- Drawing in between

  /** Two partial steps towards the same target make one. */
  lemma LerpTwice(a: real, b: real, r1: real, r2: real)
    ensures Lerp(Lerp(a, b, r1), b, r2) == Lerp(a, b, 1.0 - Times(1.0 - r1, 1.0 - r2))
  {
    LerpLeaves(a, b, r1);
    LerpLeaves(Lerp(a, b, r1), b, r2);
    LerpLeaves(a, b, 1.0 - Times(1.0 - r1, 1.0 - r2));
    assert ((b - a) * (1.0 - r1)) * (1.0 - r2) == (b - a) * ((1.0 - r1) * (1.0 - r2));
  }

  lemma LerpLeaves(a: real, b: real, delta: real)
    ensures b - Lerp(a, b, delta) == Times(b - a, 1.0 - delta)
  {
    TimesRest(b - a, delta);
    hide Times;
  }

  lemma TimesRest(x: real, delta: real)
    ensures Times(x, 1.0 - delta) == x - Times(x, delta)
  {
  }

  lemma QuotientOfRest(x: real, d: real)
    requires d > 0.0
    ensures 1.0 - Quotient(x, d) == Quotient(d - x, d)
  {
    var q := Quotient(x, d);
    assert q * d == x;
    assert (1.0 - q) * d == d - q * d;
    QuotientUnique(1.0 - q, d - x, d);
  }

  lemma QuotientsSwap(x: real, y: real, d: real, g: real)
    requires d > 0.0 && g > 0.0
    ensures Times(Quotient(x, d), Quotient(y, g)) == Times(Quotient(y, d), Quotient(x, g))
  {
    var p, q := 1.0 / d, 1.0 / g;
    QuotientIsTimes(x, d);
    QuotientIsTimes(y, d);
    QuotientIsTimes(x, g);
    QuotientIsTimes(y, g);
    assert (x * p) * (y * q) == (y * p) * (x * q);
  }

  lemma QuotientIsTimes(x: real, d: real)
    requires d > 0.0
    ensures Quotient(x, d) == x * (1.0 / d)
  {
  }

  /** How far the fraction of a render tick puts a later drawing ahead: this part of what is left. */
  function Lead(early: real, end: nat): real
    requires 0.0 <= early <= end as real
  {
    if early.Floor == end then 0.0 else Quotient(early - early.Floor as real, (end - early.Floor) as real)
  }

  /** Drawing a frame in between moves a later one on towards the target, by the part that the fraction
    * of the earlier render tick, which the drawn frame forgets, is of the time left. */
  lemma DrawingInBetweenLeads(first: Frame, second: Frame, early: real, late: real, target: Target)
    requires (first.tick as real) <= early <= late <= (second.tick as real)
    requires first.tick < second.tick < WRAP
    ensures var between := Drawn(first, second, early, target);
            Drawn(between, second, late, target).position
            == LerpVec(Drawn(first, second, late, target).position, second.position, Lead(early, second.tick))
  {
    var between := Drawn(first, second, early, target);
    var lead := Lead(early, second.tick);
    var r1, r2, r := Ratio(first, second, early), Ratio(between, second, late), Ratio(first, second, late);
    RatiosLead(first, second, between, early, late);
    hide Ratio, Lerp, Times, Quotient, Lead;
    LerpTwice(first.position.x, second.position.x, r1, r2);
    LerpTwice(first.position.y, second.position.y, r1, r2);
    LerpTwice(first.position.z, second.position.z, r1, r2);
    LerpTwice(first.position.x, second.position.x, r, lead);
    LerpTwice(first.position.y, second.position.y, r, lead);
    LerpTwice(first.position.z, second.position.z, r, lead);
  }

  lemma RatiosLead(first: Frame, second: Frame, between: Frame, early: real, late: real)
    requires (first.tick as real) <= early <= late <= (second.tick as real)
    requires first.tick < second.tick < WRAP && between.tick == early.Floor
    ensures Times(1.0 - Ratio(first, second, early), 1.0 - Ratio(between, second, late))
            == Times(1.0 - Ratio(first, second, late), 1.0 - Lead(early, second.tick))
  {
    var d, g := (second.tick - first.tick) as real, (second.tick - between.tick) as real;
    RatioIsFraction(first, second, early);
    RatioIsFraction(first, second, late);
    FloorFits(early, second.tick);
    RatioIsFraction(between, second, late);
    var end := second.tick as real;
    QuotientOfRest(early - first.tick as real, d);
    QuotientOfRest(late - first.tick as real, d);
    if between.tick < second.tick {
      QuotientOfRest(late - between.tick as real, g);
      QuotientOfRest(early - between.tick as real, g);
      hide Quotient, Times, Ratio;
      QuotientsSwap(end - early, end - late, d, g);
    } else {
      assert early == end && late == end;
      QuotientUnique(1.0, d, d);
    }
  }

  /** A later position is unchanged by the frame drawn in between exactly when that was at a whole tick,
    * or the later one is at the target, or there is no way to go. */
  lemma DrawingInBetween(first: Frame, second: Frame, early: real, late: real, target: Target)
    requires (first.tick as real) <= early <= late <= (second.tick as real)
    requires first.tick < second.tick < WRAP
    ensures var between := Drawn(first, second, early, target);
            Drawn(between, second, late, target).position == Drawn(first, second, late, target).position
            <==> early == early.Floor as real || late == second.tick as real || first.position == second.position
  {
    var direct, lead := Drawn(first, second, late, target).position, Lead(early, second.tick);
    DrawingInBetweenLeads(first, second, early, late, target);
    LeadIsZero(early, second.tick);
    RestIsZero(first, second, late);
    var r := Ratio(first, second, late);
    hide Ratio, Lerp, Lead;
    LerpStaysPut(direct.x, second.position.x, lead);
    LerpStaysPut(direct.y, second.position.y, lead);
    LerpStaysPut(direct.z, second.position.z, lead);
    LerpArrives(first.position.x, second.position.x, r);
    LerpArrives(first.position.y, second.position.y, r);
    LerpArrives(first.position.z, second.position.z, r);
  }

  lemma LeadIsZero(early: real, end: nat)
    requires 0.0 <= early <= end as real
    ensures Lead(early, end) == 0.0 <==> early == early.Floor as real
  {
    FloorFits(early, end);
    if early.Floor < end {
      QuotientIsZero(early - early.Floor as real, (end - early.Floor) as real);
    }
  }

  lemma QuotientIsZero(x: real, d: real)
    requires d > 0.0
    ensures Quotient(x, d) == 0.0 <==> x == 0.0
  {
    assert Quotient(x, d) * d == x;
  }

  lemma RestIsZero(first: Frame, second: Frame, tick: real)
    requires (first.tick as real) <= tick <= (second.tick as real)
    requires first.tick < second.tick < WRAP
    ensures Ratio(first, second, tick) == 1.0 <==> tick == second.tick as real
  {
    var d := (second.tick - first.tick) as real;
    RatioIsFraction(first, second, tick);
    QuotientOfRest(tick - first.tick as real, d);
    QuotientIsZero(d - (tick - first.tick as real), d);
  }

  lemma ZeroProduct(x: real, y: real)
    ensures Times(x, y) == 0.0 <==> x == 0.0 || y == 0.0
  {
    if y != 0.0 {
      assert Times(x, y) / y == x;
    }
  }

  lemma LerpStaysPut(a: real, b: real, delta: real)
    ensures Lerp(a, b, delta) == a <==> a == b || delta == 0.0
  {
    ZeroProduct(b - a, delta);
  }

  lemma LerpArrives(a: real, b: real, delta: real)
    ensures Lerp(a, b, delta) == b <==> a == b || delta == 1.0
  {
    LerpLeaves(a, b, delta);
    ZeroProduct(b - a, 1.0 - delta);
  }

  /** A frame is drawn where straight and even motion is at its tick: the way from the one frame to the other is
    * gone in proportion to the time, and a puppet's speed changes likewise. */
  lemma DrawnIsProportional(first: Frame, second: Frame, tick: real, target: Target)
    requires (first.tick as real) <= tick <= (second.tick as real) && first.tick < second.tick < WRAP
    ensures var f := Drawn(first, second, tick, target);
            var way, time := (second.tick - first.tick) as real, tick - first.tick as real;
            && (f.position.x - first.position.x) * way == (second.position.x - first.position.x) * time
            && (f.position.y - first.position.y) * way == (second.position.y - first.position.y) * time
            && (f.position.z - first.position.z) * way == (second.position.z - first.position.z) * time
            && (if target == Puppet then (f.speed - first.speed) * way == (second.speed - first.speed) * time
                else f.speed == 0.0)
            && f.tick == tick.Floor
  {
    var ratio, way, time := Ratio(first, second, tick), (second.tick - first.tick) as real, tick - first.tick as real;
    RatioIsFraction(first, second, tick);
    assert ratio * way == time;
    hide Ratio, Quotient, Lerp;
    LerpIsProportional(first.position.x, second.position.x, ratio, way, time);
    LerpIsProportional(first.position.y, second.position.y, ratio, way, time);
    LerpIsProportional(first.position.z, second.position.z, ratio, way, time);
    LerpIsProportional(first.speed, second.speed, ratio, way, time);
  }

  lemma LerpIsProportional(a: real, b: real, ratio: real, way: real, time: real)
    requires ratio * way == time
    ensures (Lerp(a, b, ratio) - a) * way == (b - a) * time
  {
    assert ((b - a) * ratio) * way == (b - a) * (ratio * way);
  }

  /** It is turned likewise: a vehicle about all axes, a puppet about the upright one only. */
  lemma DrawnTurnsEvenly(first: Frame, second: Frame, tick: real, target: Target)
    requires (first.tick as real) <= tick <= (second.tick as real) && first.tick < second.tick < WRAP
    ensures var at, from, to := Drawn(first, second, tick, target).rotation, first.rotation, second.rotation;
            var way, time := (second.tick - first.tick) as real, tick - first.tick as real;
            && TurnsEvenly(from.z, to.z, at.z, time, way)
            && (if target == Vehicle then
                  TurnsEvenly(from.x, to.x, at.x, time, way) && TurnsEvenly(from.y, to.y, at.y, time, way)
                else
                  at.x == 0.0 && at.y == 0.0)
  {
    var ratio, way, time := Ratio(first, second, tick), (second.tick - first.tick) as real, tick - first.tick as real;
    RatioIsFraction(first, second, tick);
    assert ratio * way == time;
    hide Ratio, Quotient, Turned, TurnsEvenly;
    TurnedEvenly(first.rotation.x, second.rotation.x, ratio, time, way);
    TurnedEvenly(first.rotation.y, second.rotation.y, ratio, time, way);
    TurnedEvenly(first.rotation.z, second.rotation.z, ratio, time, way);
  }

  /** Between frames of the same tick, only a ten-thousandth of the way is gone. */
  lemma DrawnAtOnce(first: Frame, second: Frame, tick: real, target: Target)
    requires first.tick == second.tick && tick >= 0.0
    ensures var p, a, b := Drawn(first, second, tick, target).position, first.position, second.position;
            && 10000.0 * (p.x - a.x) == b.x - a.x
            && 10000.0 * (p.y - a.y) == b.y - a.y
            && 10000.0 * (p.z - a.z) == b.z - a.z
  {
  }

  /** A frame drawn at the very tick of the next received one is at its position. */
  lemma ArrivesExactly(first: Frame, second: Frame, target: Target)
    requires first.tick < second.tick < WRAP
    ensures Drawn(first, second, second.tick as real, target).position == second.position
  {
    var d := (second.tick - first.tick) as real;
    RatioIsFraction(first, second, second.tick as real);
    QuotientUnique(1.0, d, d);
  }

  /** And it has turned to its direction, some number of circles apart. */
  lemma ArrivesTurned(first: Frame, second: Frame, target: Target) returns (circles: (int, int, int))
    requires first.tick < second.tick < WRAP
    ensures var r := Drawn(first, second, second.tick as real, target).rotation;
            Along(r.z, second.rotation.z, circles.2)
            && (target == Vehicle ==>
                  Along(r.x, second.rotation.x, circles.0) && Along(r.y, second.rotation.y, circles.1))
  {
    var d := (second.tick - first.tick) as real;
    RatioIsFraction(first, second, second.tick as real);
    QuotientUnique(1.0, d, d);
    hide Ratio, Quotient, Turned;
    var x := TurnArrives(first.rotation.x, second.rotation.x);
    var y := TurnArrives(first.rotation.y, second.rotation.y);
    var z := TurnArrives(first.rotation.z, second.rotation.z);
    circles := (x, y, z);
  }

  /** Every drawn direction is less than a circle either way. */
  lemma DrawnStaysInCircle(first: Frame, second: Frame, tick: real, target: Target)
    requires tick >= 0.0
    ensures var r := Drawn(first, second, tick, target).rotation;
            -CIRCLE < r.x < CIRCLE && -CIRCLE < r.y < CIRCLE && -CIRCLE < r.z < CIRCLE
  {
    var ratio := Ratio(first, second, tick);
    var a, b := first.rotation, second.rotation;
    TurnedStays(a.x, b.x, ratio);
    TurnedStays(a.y, b.y, ratio);
    TurnedStays(a.z, b.z, ratio);
    hide Turned, Ratio, LerpVec;
  }
}
