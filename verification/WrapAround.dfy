/** Runs in which a counter of identifiers wraps around and a job is lost: what the conservation of jobs needs
  * its conditions for. */
module WrapAround {

  import opened Jobs
  import opened Options

  const NOWHERE := Location(0.0, 0.0, 0.0)

  lemma RunSplits(s: State, e: Event, rest: seq<Event>, w: nat -> nat)
    ensures AllLostFees(s, [e] + rest, w) == LostFees(s, e, w) + AllLostFees(Next(s, e), rest, w)
    ensures AllLostRides(s, [e] + rest, w) == LostRides(s, e, w) + AllLostRides(Next(s, e), rest, w)
  {
    assert ([e] + rest)[0] == e && ([e] + rest)[1..] == rest;
  }

  // ----- Deliveries

  /** The first player's driver holds the delivery worth a hundred; the other four are on the board under their
    * first identifiers. */
  predicate Cycling(s: State, n: nat) {
    var d := s.deliveries;
    s.players == map[0 := 0] && d.nextId == n && d.available.Keys == {1, 3, 4, 5}
    && d.drivers.Keys == {0} && d.drivers[0].Some? && d.drivers[0].value.fees == 100
  }

  /** Cancelling and accepting again takes the delivery from identifier to identifier. */
  lemma Cycles(s: State, n: nat) returns (t: State)
    requires Cycling(s, n) && n < ID_LIMIT && n !in {1, 3, 4, 5}
    ensures t == Next(Next(s, CancelDelivery(0)), AcceptDelivery(0, n)) && Cycling(t, NextIdentifier(n))
  {
    var c := Next(s, CancelDelivery(0));
    assert c.deliveries.available.Keys == {1, 3, 4, 5, n};
    t := Next(c, AcceptDelivery(0, n));
    assert t.deliveries.available.Keys == {1, 3, 4, 5};
  }

  /** Once the counter has come round to one, the delivery cannot be put back. */
  lemma {:induction false} CyclingLoses(s: State, n: nat) returns (events: seq<Event>)
    requires Cycling(s, n) && (n <= 1 || 6 <= n < ID_LIMIT)
    ensures AllLostFees(s, events, Is(100)) >= 1
    decreases if n <= 1 then 1 - n else ID_LIMIT + 1 - n
  {
    if n == 1 {
      var left := Next(s, Quit(0));
      events := [Quit(0)] + ([Finalize(0)] + []);
      RunSplits(left, Finalize(0), [], Is(100));
      RunSplits(s, Quit(0), [Finalize(0)] + [], Is(100));
      assert LostFees(left, Finalize(0), Is(100)) == 1;
    } else {
      var c := Next(s, CancelDelivery(0));
      var t := Cycles(s, n);
      hide Cycling, Next, LostFees, AllLostFees;
      var rest := CyclingLoses(t, NextIdentifier(n));
      events := [CancelDelivery(0)] + ([AcceptDelivery(0, n)] + rest);
      RunSplits(c, AcceptDelivery(0, n), rest, Is(100));
      RunSplits(s, CancelDelivery(0), [AcceptDelivery(0, n)] + rest, Is(100));
    }
  }

  lemma FirstBoard()
    ensures var d := Start().deliveries;
            d.available.Keys == {1, 2, 3, 4, 5} && d.nextId == 6 && d.drivers == map[] && d.available[2].fees == 100
  {
    assert Stocked(1).available.Keys == {1} && Stocked(1).nextId == 2;
    assert Stocked(2).available.Keys == {1, 2} && Stocked(2).available[2].fees == 100 && Stocked(2).nextId == 3;
    assert Stocked(3).available.Keys == {1, 2, 3} && Stocked(3).available[2].fees == 100 && Stocked(3).nextId == 4;
    assert Stocked(4).available.Keys == {1, 2, 3, 4} && Stocked(4).available[2].fees == 100 && Stocked(4).nextId == 5;
    StockedIs(5);
  }

  /** One player alone can make a delivery get lost: by cancelling and accepting it until its counter has wrapped
    * around, and leaving. */
  lemma RunThatLosesDelivery() returns (events: seq<Event>)
    ensures AllLostFees(Start(), events, Is(100)) >= 1
    ensures !exists p :: DeliveryIn(Run(Start(), events).deliveries, 100, p)
  {
    FirstBoard();
    var s := Start();
    var t := Next(s, SetJob(0, DeliveryName));
    var u := Next(t, AcceptDelivery(0, 2));
    assert t.deliveries.drivers == map[0 := None] && t.players == map[0 := 0];
    assert u.deliveries.available.Keys == {1, 3, 4, 5};
    assert Cycling(u, 6);
    hide Cycling, Next, LostFees, AllLostFees, Stocked;
    var rest := CyclingLoses(u, 6);
    events := [SetJob(0, DeliveryName)] + ([AcceptDelivery(0, 2)] + rest);
    RunSplits(t, AcceptDelivery(0, 2), rest, Is(100));
    RunSplits(s, SetJob(0, DeliveryName), [AcceptDelivery(0, 2)] + rest, Is(100));
    EveryDeliveryHasOnePlace(events, 100);
  }

  // ----- Rides

  /** The first player's taxi carries the first ride, and the stand has issued identifiers up to n. */
  predicate Driving(s: State, n: nat) {
    var t := s.rides;
    s.players == map[0 := 0] && t.jobId == n && 1 !in t.available
    && t.cabs.Keys == {0} && t.cabs[0].active.Some? && t.cabs[0].active.value.id == 1
  }

  function Request(): Event {
    CreateRide(1, true, NOWHERE, NOWHERE)
  }

  /** Requests fill the stand until one of them gets the first identifier again. */
  lemma {:induction false} DrivingLoses(s: State, n: nat) returns (events: seq<Event>)
    requires Driving(s, n) && n < ID_LIMIT
    ensures AllLostRides(s, events, Is(1)) >= 1
    decreases if n == 0 then 0 else ID_LIMIT - n
  {
    var t := Next(s, Request());
    if n == 0 {
      var left := Next(t, Quit(0));
      events := [Request()] + ([Quit(0)] + ([Finalize(0)] + []));
      assert LostRides(left, Finalize(0), Is(1)) == 1;
      RunSplits(left, Finalize(0), [], Is(1));
      RunSplits(t, Quit(0), [Finalize(0)] + [], Is(1));
      RunSplits(s, Request(), [Quit(0)] + ([Finalize(0)] + []), Is(1));
    } else {
      assert Driving(t, NextIdentifier(n));
      hide Driving, Next, LostRides, AllLostRides;
      var rest := DrivingLoses(t, NextIdentifier(n));
      events := [Request()] + rest;
      RunSplits(s, Request(), rest, Is(1));
    }
  }

  /** And requests for rides alone can make a ride get lost that is still carried when their counter comes round. */
  lemma RunThatLosesRide() returns (events: seq<Event>)
    ensures AllLostRides(Start(), events, Is(1)) >= 1
  {
    hide Stocked;
    var s := Start();
    var t := Next(s, SetJob(0, TaxiName));
    var u := Next(t, Request());
    var v := Next(u, AcceptRide(0, 1));
    assert t.rides.cabs == map[0 := Cab(None, false)] && t.players == map[0 := 0];
    assert u.rides.available.Keys == {1};
    assert Driving(v, 1);
    hide Driving, Next, LostRides, AllLostRides;
    var rest := DrivingLoses(v, 1);
    events := [SetJob(0, TaxiName)] + ([Request()] + ([AcceptRide(0, 1)] + rest));
    RunSplits(u, AcceptRide(0, 1), rest, Is(1));
    RunSplits(t, Request(), [AcceptRide(0, 1)] + rest, Is(1));
    RunSplits(s, SetJob(0, TaxiName), [Request()] + ([AcceptRide(0, 1)] + rest), Is(1));
  }
}
