/** Which of the frames an entity receives are in its buffer, told from the events alone. */
module Received {

  import opened Interpolation
  import opened Options

  /** A render tick after the arrival of frame i, among the first n events, lies beyond it. */
  predicate Passed(events: seq<Event>, i: nat, n: nat)
    requires i < |events| && events[i].Move? && n <= |events|
  {
    exists j :: i < j < n && events[j].Render? && events[j].tick > events[i].frame.tick as real
  }

  /** A frame is refused on its arrival when an accepted one that no render has passed is newer. */
  predicate Accepted(events: seq<Event>, i: nat)
    requires i < |events|
    decreases i
  {
    events[i].Move?
    && forall j :: 0 <= j < i && Accepted(events, j) && !Passed(events, j, i) ==>
         events[j].frame.tick <= events[i].frame.tick
  }

  predicate Kept(events: seq<Event>, i: nat, n: nat)
    requires i < |events| && n <= |events|
  {
    Accepted(events, i) && !Passed(events, i, n)
  }

  /** The frames kept after n events, of the first i, in order of arrival. */
  function Arrived(events: seq<Event>, i: nat, n: nat): seq<Frame>
    requires i <= n <= |events|
  {
    if i == 0 then []
    else Arrived(events, i - 1, n) + (if Kept(events, i - 1, n) then [events[i - 1].frame] else [])
  }

  /** What is in the buffer at first counts as received then. */
  function Moves(queue: seq<Frame>): (events: seq<Event>)
    ensures |events| == |queue|
  {
    seq(|queue|, i requires 0 <= i < |queue| => Move(queue[i]))
  }

  // ----- What one event does to the frames kept

  /** The frames of a list that a tick does not lie beyond. */
  function Beyond(queue: seq<Frame>, tick: real): seq<Frame> {
    if queue == [] then []
    else
      var k := |queue| - 1;
      Beyond(queue[..k], tick) + (if tick > queue[k].tick as real then [] else [queue[k]])
  }

  lemma {:induction false} BeyondAll(queue: seq<Frame>, tick: real)
    requires forall f <- queue :: !(tick > f.tick as real)
    ensures Beyond(queue, tick) == queue
  {
    if queue != [] {
      var k := |queue| - 1;
      BeyondAll(queue[..k], tick);
      assert queue == queue[..k] + [queue[k]];
    }
  }

  lemma {:induction false} BeyondNone(front: seq<Frame>, queue: seq<Frame>, tick: real)
    requires forall f <- front :: tick > f.tick as real
    ensures Beyond(front + queue, tick) == Beyond(queue, tick)
    decreases |front| + |queue|
  {
    if queue != [] {
      var k := |queue| - 1;
      assert (front + queue)[..|front| + k] == front + queue[..k];
      BeyondNone(front, queue[..k], tick);
    } else if front != [] {
      var k := |front| - 1;
      assert front + queue == front && (front + queue)[..k] == front[..k] + [];
      BeyondNone(front[..k], [], tick);
    }
  }

  /** On a sorted queue, dropping the leading points that lie before the tick drops all of them. */
  lemma PoppedIsBeyond(queue: seq<Frame>, tick: real)
    requires Sorted(queue)
    ensures Popped(queue, tick) == Beyond(queue, tick)
  {
    hide Popped, Beyond;
    var k := PoppedIsSuffix(queue, tick);
    assert queue == queue[..k] + queue[k..];
    BeyondNone(queue[..k], queue[k..], tick);
    BeyondAll(queue[k..], tick);
  }

  lemma {:induction false} ArrivedAre(events: seq<Event>, i: nat, n: nat, f: Frame)
    requires i <= n <= |events|
    ensures f in Arrived(events, i, n) <==> exists j :: 0 <= j < i && Kept(events, j, n) && events[j].frame == f
  {
    if i > 0 {
      ArrivedAre(events, i - 1, n, f);
    }
  }

  /** A further frame passes none, and a further render those that it lies beyond. */
  lemma PassedMore(events: seq<Event>, i: nat, n: nat)
    requires i < n < |events| && events[i].Move?
    ensures Passed(events, i, n + 1)
       <==> Passed(events, i, n) || (events[n].Render? && events[n].tick > events[i].frame.tick as real)
  {
  }

  lemma {:induction false} ArrivedAfterMove(events: seq<Event>, i: nat, n: nat)
    requires i <= n < |events| && events[n].Move?
    ensures Arrived(events, i, n + 1) == Arrived(events, i, n)
  {
    if i > 0 {
      ArrivedAfterMove(events, i - 1, n);
      if events[i - 1].Move? {
        PassedMore(events, i - 1, n);
      }
      hide Accepted, Passed;
    }
  }

  lemma {:induction false} ArrivedAfterRender(events: seq<Event>, i: nat, n: nat)
    requires i <= n < |events| && events[n].Render?
    ensures Arrived(events, i, n + 1) == Beyond(Arrived(events, i, n), events[n].tick)
  {
    if i > 0 {
      ArrivedAfterRender(events, i - 1, n);
      if events[i - 1].Move? {
        PassedMore(events, i - 1, n);
      }
      hide Accepted, Passed;
      var before, f := Arrived(events, i - 1, n), events[i - 1];
      if Kept(events, i - 1, n) {
        assert (before + [f.frame])[..|before|] == before;
        assert Arrived(events, i, n) == before + [f.frame];
      } else {
        assert Arrived(events, i, n) == before;
        assert !Kept(events, i - 1, n + 1);
      }
    }
  }

  lemma NewcomerPassed(events: seq<Event>, n: nat)
    requires n < |events| && events[n].Move?
    ensures !Passed(events, n, n + 1)
  {
  }

  /** A frame is accepted exactly when those kept before it are no newer. */
  lemma AcceptedIff(events: seq<Event>, n: nat)
    requires n < |events| && events[n].Move?
    ensures Accepted(events, n) <==> forall f <- Arrived(events, n, n) :: f.tick <= events[n].frame.tick
  {
    forall f
      ensures f in Arrived(events, n, n) <==> exists j :: 0 <= j < n && Kept(events, j, n) && events[j].frame == f {
      ArrivedAre(events, n, n, f);
    }
    if forall f <- Arrived(events, n, n) :: f.tick <= events[n].frame.tick {
      forall j | 0 <= j < n && Accepted(events, j) && !Passed(events, j, n)
        ensures events[j].frame.tick <= events[n].frame.tick
      {
        assert Kept(events, j, n) && events[j].frame in Arrived(events, n, n);
      }
    }
  }

  /** The end of a sorted queue is its newest frame. */
  lemma NewestIsLast(queue: seq<Frame>, tick: nat)
    requires Sorted(queue)
    ensures (forall f <- queue :: f.tick <= tick) <==> queue == [] || queue[|queue| - 1].tick <= tick
  {
  }

  /** One event more, from a buffer that holds the frames kept. */
  lemma StepKeeps(s: State, events: seq<Event>, n: nat)
    requires n < |events| && s.queue == Arrived(events, n, n) && Sorted(s.queue) && Allowed(s, events[n])
    ensures Next(s, events[n]).queue == Arrived(events, n + 1, n + 1)
  {
    var e := events[n];
    if e.Move? {
      ArrivedAfterMove(events, n, n);
      AcceptedIff(events, n);
      NewestIsLast(s.queue, e.frame.tick);
      NewcomerPassed(events, n);
      hide Accepted, Passed, Sorted;
    } else {
      ArrivedAfterRender(events, n, n);
      PoppedIsBeyond(s.queue, e.tick);
      hide Accepted, Passed, Sorted, Popped;
    }
  }

  // ----- Runs

  lemma {:induction false} QueueArrives(queue: seq<Frame>, events: seq<Event>, n: nat)
    requires Sorted(queue) && n <= |queue| && Moves(queue) <= events
    ensures Arrived(events, n, n) == queue[..n]
  {
    if n > 0 {
      QueueArrives(queue, events, n - 1);
      assert events[n - 1] == Moves(queue)[n - 1] == Move(queue[n - 1]);
      StepKeeps(State(queue[..n - 1], Frame(Vec3(0.0, 0.0, 0.0), Vec3(0.0, 0.0, 0.0), 0.0, 0)), events, n - 1);
      var before := queue[..n - 1];
      assert before == [] || before[|before| - 1].tick <= queue[n - 1].tick;
    }
  }

  lemma FitsIsAllowed(s: State, e: Event, last: real)
    requires Fits(e, last)
    ensures Allowed(s, e)
  {
  }

  lemma {:induction false} RunKeeps(s: State, events: seq<Event>, last: real, done: seq<Event>)
    requires Timely(events, last) && Good(s, last) && s.queue == Arrived(done + events, |done|, |done|)
    ensures Run(s, events, last).queue == Arrived(done + events, |done| + |events|, |done| + |events|)
    decreases |events|
  {
    hide Next, Arrived, Allowed;
    if events == [] {
    } else {
      var e := events[0];
      FitsIsAllowed(s, e, last);
      NextIsGood(s, e, last);
      assert done + events == (done + [e]) + events[1..];
      assert (done + events)[|done|] == e;
      StepKeeps(s, done + events, |done|);
      hide Good, Fits;
      RunKeeps(Next(s, e), events[1..], Last(e, last), done + [e]);
    }
  }

  lemma GoodIsSorted(s: State, last: real)
    requires Good(s, last)
    ensures Sorted(s.queue)
  {
  }

  lemma QueueIsThere(queue: seq<Frame>, front: seq<Event>, events: seq<Event>)
    requires Sorted(queue) && front == Moves(queue)
    ensures Arrived(front + events, |front|, |front|) == queue
  {
    hide *;
    assert front <= front + events;
    QueueArrives(queue, front + events, |queue|);
    assert queue[..|queue|] == queue;
  }

  lemma Lengths(front: seq<Event>, events: seq<Event>)
    ensures |front + events| == |front| + |events|
  {
  }

  /** After every run, the queue is exactly the frames that were accepted and that no render tick has passed since,
    * in order of arrival, those in the queue at first included. */
  lemma QueueIsWhatArrived(s: State, events: seq<Event>, last: real)
    requires Timely(events, last) && Good(s, last)
    ensures var all := Moves(s.queue) + events;
            Run(s, events, last).queue == Arrived(all, |all|, |all|)
  {
    hide *;
    var front := Moves(s.queue);
    GoodIsSorted(s, last);
    QueueIsThere(s.queue, front, events);
    RunKeeps(s, events, last, front);
    Lengths(front, events);
  }

  /** A received frame that is not older than any before it stays in the queue until a render tick lies beyond it. */
  lemma NewestStays(s: State, events: seq<Event>, last: real, i: nat)
    requires Timely(events, last) && Good(s, last) && i < |events| && events[i].Move?
    requires forall f <- s.queue :: f.tick <= events[i].frame.tick
    requires forall j :: 0 <= j < i && events[j].Move? ==> events[j].frame.tick <= events[i].frame.tick
    requires forall j :: i < j < |events| && events[j].Render? ==> events[j].tick <= events[i].frame.tick as real
    ensures events[i].frame in Run(s, events, last).queue
  {
    var q, all := |s.queue|, Moves(s.queue) + events;
    QueueIsWhatArrived(s, events, last);
    NewestIsKept(s.queue, events, i);
    hide Accepted, Passed, Timely, Good, Run;
    ArrivedAre(all, |all|, |all|, events[i].frame);
    assert all[q + i] == events[i];
  }

  lemma NewestIsKept(queue: seq<Frame>, events: seq<Event>, i: nat)
    requires i < |events| && events[i].Move?
    requires forall f <- queue :: f.tick <= events[i].frame.tick
    requires forall j :: 0 <= j < i && events[j].Move? ==> events[j].frame.tick <= events[i].frame.tick
    requires forall j :: i < j < |events| && events[j].Render? ==> events[j].tick <= events[i].frame.tick as real
    ensures var all := Moves(queue) + events;
            all[|queue| + i] == events[i] && Kept(all, |queue| + i, |all|)
  {
    var q, all := |queue|, Moves(queue) + events;
    assert forall j :: 0 <= j < q ==> all[j] == Move(queue[j]);
    assert forall j :: q <= j < |all| ==> all[j] == events[j - q];
    forall j | 0 <= j < q + i && Accepted(all, j) ensures all[j].frame.tick <= events[i].frame.tick {
      if j < q {
        assert all[j].frame == queue[j];
      } else {
        assert events[j - q].Move?;
      }
    }
    assert !Passed(all, q + i, |all|);
  }

  /** A render draws exactly when the engine can and a frame is left that neither it nor an earlier one has passed,
    * and then draws from the frame drawn before towards the first of these. */
  lemma RenderDrawsFirstLeft(s: State, events: seq<Event>, last: real, tick: real, target: Target)
    requires Timely(events + [Render(tick, target)], last) && Timely(events, last) && Good(s, last)
    requires Allowed(Run(s, events, last), Render(tick, target))
    ensures var all := Moves(s.queue) + events + [Render(tick, target)];
            var left := Arrived(all, |all|, |all|);
            var t := Run(s, events, last);
            Draws(t, Render(tick, target))
            == if left != [] && target != Absent && tick >= 0.0
               then Some(Drawn(t.previous, left[0], tick, target)) else None
  {
    var e := Render(tick, target);
    var before, all := Moves(s.queue) + events, Moves(s.queue) + (events + [e]);
    assert all == Moves(s.queue) + events + [e];
    QueueIsWhatArrived(s, events + [e], last);
    RunMore(s, events, e, last);
  }

  lemma {:induction false} RunMore(s: State, events: seq<Event>, e: Event, last: real)
    requires Timely(events, last) && Timely(events + [e], last) && Good(s, last)
    ensures Allowed(Run(s, events, last), e)
    ensures Run(s, events + [e], last) == Next(Run(s, events, last), e)
    decreases |events|
  {
    hide Next, Good;
    if events == [] {
      assert (events + [e])[0] == e && (events + [e])[1..] == [];
    } else {
      assert (events + [e])[0] == events[0] && (events + [e])[1..] == events[1..] + [e];
      NextIsGood(s, events[0], last);
      RunMore(Next(s, events[0]), events[1..], e, Last(events[0], last));
    }
  }

  /** The frame a buffer draws from is the one it drew last, or the one it began with. */
  lemma {:induction false} PreviousIsLastDrawn(s: State, events: seq<Event>, last: real)
    requires Timely(events, last)
    ensures var drawn := AllDrawn(s, events, last);
            Run(s, events, last).previous == if drawn == [] then s.previous else drawn[|drawn| - 1]
    decreases |events|
  {
    if events != [] {
      PreviousIsLastDrawn(Next(s, events[0]), events[1..], Last(events[0], last));
    }
  }
}
