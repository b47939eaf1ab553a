/** Clock and interpolation together: the client draws at the tick its clock shows, less a delay. */
module Playback {

  import C = Clock
  import I = Interpolation

  datatype Step =
    | Server(serverTick: nat, ping: nat, now: int)
    | Advance(now: int)
    | Receive(frame: I.Frame)
    | Draw(target: I.Target)

  /** What a step is to the clock. */
  function ClockAfter(clock: C.State, s: Step): C.State {
    match s
    case Server(serverTick, ping, now) => C.Next(clock, C.Sync(serverTick, ping, now))
    case Advance(now) => C.Next(clock, C.Tick(now))
    case _ => clock
  }

  /** What a step is to the buffer of received frames. */
  function BufferEvent(clock: C.State, s: Step, delay: real): seq<I.Event> {
    match s
    case Receive(frame) => [I.Move(frame)]
    case Draw(target) => [I.Render(C.Shown(clock) as real - delay, target)]
    case _ => []
  }

  function BufferEvents(clock: C.State, steps: seq<Step>, delay: real): seq<I.Event>
    decreases |steps|
  {
    if steps == [] then []
    else BufferEvent(clock, steps[0], delay) + BufferEvents(ClockAfter(clock, steps[0]), steps[1..], delay)
  }

  function Time(s: Step, now: int): int {
    if s.Server? || s.Advance? then s.now else now
  }

  /** Local time never goes back, an accepted correction is at least minus one second, a received tick fits
    * 64 bits, and nothing is drawn before the clock shows at least the delay. */
  predicate Orderly(clock: C.State, s: Step, now: int, delay: real) {
    match s
    case Server(serverTick, ping, t) =>
      var e := C.Sync(serverTick, ping, t);
      now <= t && (C.Corrects(clock, e) ==> C.Estimate(e) - clock.shown >= -1000)
    case Advance(t) => now <= t
    case Receive(frame) => frame.tick < I.WRAP
    case Draw(_) => delay <= C.Shown(clock) as real
  }

  predicate AllOrderly(clock: C.State, steps: seq<Step>, now: int, delay: real)
    decreases |steps|
  {
    steps == []
    || (Orderly(clock, steps[0], now, delay)
        && AllOrderly(ClockAfter(clock, steps[0]), steps[1..], Time(steps[0], now), delay))
  }

  /** A clock with gentle corrections gives the buffer render ticks that never go back. */
  lemma {:induction false} RenderTicksAreTimely(clock: C.State, steps: seq<Step>, now: int, delay: real, last: real)
    requires C.Sound(clock) && C.Ahead(clock, now) && AllOrderly(clock, steps, now, delay)
    requires last == 0.0 || last <= C.Shown(clock) as real - delay
    ensures I.Timely(BufferEvents(clock, steps, delay), last)
    decreases |steps|
  {
    if steps != [] {
      var s := steps[0];
      var after := ClockAfter(clock, s);
      var last' := if s.Draw? then C.Shown(clock) as real - delay else last;
      if s.Server? || s.Advance? {
        var e := if s.Server? then C.Sync(s.serverTick, s.ping, s.now) else C.Tick(s.now);
        C.NextIsSound(clock, e);
        C.NextIsAhead(clock, e, now);
      }
      hide C.Ahead, C.Sound, C.Next;
      RenderTicksAreTimely(after, steps[1..], Time(s, now), delay, last');
      assert |BufferEvent(clock, s, delay)| == 1 ==>
             BufferEvents(clock, steps, delay)[1..] == BufferEvents(after, steps[1..], delay);
      assert |BufferEvent(clock, s, delay)| == 0 ==>
             BufferEvents(clock, steps, delay) == BufferEvents(after, steps[1..], delay);
    }
  }

  /** From a fresh client on: however server ticks, clock updates, received frames and drawing interleave, drawn
    * ticks never decrease, and everything drawn lies in the box and between the speeds that hold all received
    * frames. */
  lemma PlaybackIsSmooth(steps: seq<Step>, now: int, delay: real, start: I.Frame, b: I.Box, lo: real, hi: real)
    requires AllOrderly(C.Idle, steps, now, delay) && start.tick == 0
    requires lo <= 0.0 <= hi && I.HeldInBox(start, b, lo, hi)
    requires forall s <- steps :: s.Receive? ==> I.HeldInBox(s.frame, b, lo, hi)
    ensures var events := BufferEvents(C.Idle, steps, delay);
            && I.Timely(events, 0.0)
            && var drawn := I.AllDrawn(I.State([], start), events, 0.0);
               && (forall f <- drawn :: I.HeldInBox(f, b, lo, hi))
               && I.AscendFrom(drawn, 0)
  {
    hide I.HeldInBox;
    RenderTicksAreTimely(C.Idle, steps, now, delay, 0.0);
    ReceivedAreSteps(C.Idle, steps, delay);
    I.DrawnTicksAscend(I.State([], start), BufferEvents(C.Idle, steps, delay), 0.0);
    I.DrawingsStayInBox(I.State([], start), BufferEvents(C.Idle, steps, delay), 0.0, b, lo, hi);
  }

  lemma {:induction false} ReceivedAreSteps(clock: C.State, steps: seq<Step>, delay: real)
    ensures forall e <- BufferEvents(clock, steps, delay) :: e.Move? ==> Receive(e.frame) in steps
    decreases |steps|
  {
    if steps != [] {
      ReceivedAreSteps(ClockAfter(clock, steps[0]), steps[1..], delay);
      forall e <- BufferEvents(clock, steps, delay) | e.Move? ensures Receive(e.frame) in steps {
        if e !in BufferEvents(ClockAfter(clock, steps[0]), steps[1..], delay) {
          assert steps[0] == Receive(e.frame);
        }
      }
    }
  }
}
