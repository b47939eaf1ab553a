/** What each event does to the jobs, told by conditions on the state before it, and what whole runs come to:
  * who has a job, which deliveries are paid and which rides are finished. */
module JobLaws {

  import opened Jobs
  import opened Options

  // ----- Who has a job

  predicate Takes(e: Event, p: Player) {
    e.SetJob? && e.player == p && e.name != UnknownName
  }

  /** A player has a job after an event exactly when it takes one by it, or had one and does not quit by it. A job that
    * a player has already stays, and a new one is a new object. */
  lemma JobAfter(s: State, e: Event, p: Player)
    ensures p in Next(s, e).players <==> Takes(e, p) || (p in s.players && e != Quit(p))
    ensures p in s.players && e != Quit(p) ==> Next(s, e).players[p] == s.players[p]
    ensures Takes(e, p) && p !in s.players ==> Next(s, e).players[p] == s.nextRef && Next(s, e).nextRef == s.nextRef + 1
  {
  }

  predicate TookOne(events: seq<Event>, p: Player, i: nat)
    requires i < |events|
  {
    Takes(events[i], p) && Quit(p) !in events[i..]
  }

  /** After every run, a player who had no job has one exactly when it took one and has not quit since. */
  lemma {:induction false} HasJobIff(s: State, events: seq<Event>, p: Player)
    requires p !in s.players
    ensures p in Run(s, events).players <==> exists i :: 0 <= i < |events| && TookOne(events, p, i)
    decreases |events|
  {
    if events != [] {
      var k := |events| - 1;
      var before, e := events[..k], events[k];
      HasJobIff(s, before, p);
      RunSplits(s, before, e);
      assert events == before + [e];
      JobAfter(Run(s, before), e, p);
      hide Run, Next;
      forall i | 0 <= i < k ensures TookOne(events, p, i) <==> TookOne(before, p, i) && e != Quit(p) {
        assert events[i..] == before[i..] + [e];
      }
      assert events[k..] == [e];
      assert Takes(e, p) ==> TookOne(events, p, k);
    }
  }

  lemma {:induction false} RunSplits(s: State, events: seq<Event>, e: Event)
    ensures Run(s, events + [e]) == Next(Run(s, events), e)
    decreases |events|
  {
    hide Next;
    if events == [] {
      assert (events + [e])[1..] == [];
    } else {
      assert (events + [e])[1..] == events[1..] + [e];
      RunSplits(Next(s, events[0]), events[1..], e);
    }
  }

  // ----- Deliveries

  /** An object drives for deliveries after an event exactly when it did and is not finalized, or is new by name. */
  lemma DriversAre(s: State, e: Event, r: Ref)
    ensures r in Next(s, e).deliveries.drivers
       <==> (r in s.deliveries.drivers && e != Finalize(r))
            || (r == s.nextRef && e.SetJob? && e.name == DeliveryName && e.player !in s.players)
    ensures r !in s.deliveries.drivers && r in Next(s, e).deliveries.drivers ==>
              Next(s, e).deliveries.drivers[r] == None
  {
  }

  /** A player without a delivery asks for one that is on the board. */
  predicate Collects(s: State, e: Event) {
    e.AcceptDelivery? && Drives(s, e.player)
    && s.deliveries.drivers[s.players[e.player]].None? && e.id in s.deliveries.available
  }

  /** A player with a delivery is updated at its destination. */
  predicate Delivers(s: State, e: Event) {
    e.HeavyUpdate? && Drives(s, e.player) && s.deliveries.drivers[s.players[e.player]].Some?
    && e.senses.driverThere && e.senses.arrived
  }

  /** Object r gives its delivery back, or would: its player cancels, or it is finalized. */
  predicate GivesBack(s: State, e: Event, r: Ref) {
    r in s.deliveries.drivers && s.deliveries.drivers[r].Some?
    && ((e.CancelDelivery? && Drives(s, e.player) && s.players[e.player] == r) || e == Finalize(r))
  }

  /** The board loses exactly the delivery that a player collects, and gains exactly one that is given back while the
    * next identifier is free, under that identifier. */
  lemma BoardAfter(s: State, e: Event)
    requires ObjectsAreGood(s)
    ensures Collects(s, e) ==> Next(s, e).deliveries.available == s.deliveries.available - {e.id}
    ensures forall r :: GivesBack(s, e, r) ==>
              var d := s.deliveries;
              Next(s, e).deliveries.nextId == NextIdentifier(d.nextId)
              && Next(s, e).deliveries.available
                 == if d.nextId in d.available then d.available
                    else d.available[d.nextId := d.drivers[r].value.(id := d.nextId)]
    ensures !Collects(s, e) && (forall r :: !GivesBack(s, e, r)) ==>
              && Next(s, e).deliveries.available == s.deliveries.available
              && Next(s, e).deliveries.nextId == s.deliveries.nextId
  {
    match e
    case CancelDelivery(p) =>
      if Drives(s, p) {
        assert s.deliveries.drivers[s.players[p]].Some? ==> GivesBack(s, e, s.players[p]);
      }
    case Finalize(r) =>
      if r in s.deliveries.drivers {
        assert s.deliveries.drivers[r].Some? ==> GivesBack(s, e, r);
      }
    case _ =>
  }

  /** What an object that stays holds after an event: what its player collects, nothing once that is delivered or given
    * back, and otherwise what it held. */
  lemma HeldAfter(s: State, e: Event, r: Ref)
    requires ObjectsAreGood(s) && r in s.deliveries.drivers && e != Finalize(r)
    ensures r in Next(s, e).deliveries.drivers
    ensures Next(s, e).deliveries.drivers[r]
         == if Collects(s, e) && s.players[e.player] == r then Some(s.deliveries.available[e.id])
            else if Delivers(s, e) && s.players[e.player] == r then None
            else if GivesBack(s, e, r) && s.deliveries.nextId !in s.deliveries.available then None
            else s.deliveries.drivers[r]
  {
  }

  /** Fees are paid exactly when a player with a delivery is updated at its destination: those of the delivery. */
  lemma PaidIff(s: State, e: Event)
    ensures Next(s, e).deliveries.paid
         == s.deliveries.paid + if Delivers(s, e) then [s.deliveries.drivers[s.players[e.player]].value.fees] else []
    ensures Delivers(s, e) ==> Next(s, e).deliveries.drivers[s.players[e.player]] == None
  {
  }

  /** The fees of the deliveries that a run takes to their destinations. */
  function Delivered(s: State, events: seq<Event>): seq<nat>
    decreases |events|
  {
    if events == [] then []
    else
      (if Delivers(s, events[0]) then [s.deliveries.drivers[s.players[events[0].player]].value.fees] else [])
      + Delivered(Next(s, events[0]), events[1..])
  }

  /** After every run, what has been paid is exactly the fees of the deliveries taken to their destinations,
    * in order. */
  lemma {:induction false} PaidAreDelivered(s: State, events: seq<Event>)
    ensures Run(s, events).deliveries.paid == s.deliveries.paid + Delivered(s, events)
    decreases |events|
  {
    hide Next, Delivers;
    if events != [] {
      PaidIff(s, events[0]);
      PaidAreDelivered(Next(s, events[0]), events[1..]);
    }
  }

  // ----- Rides

  lemma CabsAre(s: State, e: Event, r: Ref)
    ensures r in Next(s, e).rides.cabs
       <==> (r in s.rides.cabs && e != Finalize(r))
            || (r == s.nextRef && e.SetJob? && e.name == TaxiName && e.player !in s.players)
    ensures r !in s.rides.cabs && r in Next(s, e).rides.cabs ==> Next(s, e).rides.cabs[r] == Cab(None, false)
  {
  }

  /** The taxi that an event is about, if it is there. */
  predicate Concerns(s: State, e: Event, r: Ref) {
    r in s.rides.cabs
    && (((e.AcceptRide? || e.CancelRide? || e.RiderReady? || e.HeavyUpdate?)
         && Cabs(s, e.player) && s.players[e.player] == r)
        || e == Finalize(r))
  }

  predicate PicksUp(s: State, e: Event, r: Ref) {
    Concerns(s, e, r) && e.AcceptRide? && s.rides.cabs[r].active.None? && e.id in s.rides.available
  }

  /** The taxi drops its ride, or would: its player cancels, its rider turns out to be gone, the driver or rider is gone
    * before the ride has begun, or it is finalized. */
  predicate Drops(s: State, e: Event, r: Ref) {
    Concerns(s, e, r) && s.rides.cabs[r].active.Some?
    && (e.CancelRide? || e.Finalize? || (e.RiderReady? && !e.riderThere)
        || (e.HeavyUpdate? && !s.rides.cabs[r].isRiderReady && !(e.senses.driverThere && e.senses.riderThere)))
  }

  /** The ride begins: its rider reports with both there, or rider and driver are found seated together. */
  predicate Begins(s: State, e: Event, r: Ref) {
    Concerns(s, e, r) && s.rides.cabs[r].active.Some?
    && ((e.RiderReady? && e.riderThere && e.driverThere)
        || (e.HeavyUpdate? && !s.rides.cabs[r].isRiderReady && e.senses.driverThere && e.senses.riderThere
            && e.senses.seated && e.senses.together))
  }

  /** The ride ends: begun, at its destination, with the driver there and the rider out of the taxi or gone. */
  predicate Ends(s: State, e: Event, r: Ref) {
    Concerns(s, e, r) && e.HeavyUpdate? && s.rides.cabs[r].active.Some? && s.rides.cabs[r].isRiderReady
    && e.senses.driverThere && e.senses.arrived && !(e.senses.riderThere && e.senses.together)
  }

  /** What a taxi that stays carries after an event. */
  lemma CarriedAfter(s: State, e: Event, r: Ref)
    requires ObjectsAreGood(s) && r in s.rides.cabs && e != Finalize(r)
    ensures r in Next(s, e).rides.cabs
    ensures Next(s, e).rides.cabs[r].active
         == if PicksUp(s, e, r) then Some(s.rides.available[e.id])
            else if Ends(s, e, r) then None
            else if Drops(s, e, r) && s.rides.cabs[r].active.value.id !in s.rides.available then None
            else s.rides.cabs[r].active
  {
    CabsAre(s, e, r);
    assert r != s.nextRef;
    hide NextDeliveries, ObjectsAreGood;
    match e
    case AcceptRide(p, _) =>
    case CancelRide(p) =>
    case RiderReady(p, _, _) =>
    case HeavyUpdate(p, _) =>
    case _ =>
  }

  /** A rider counts as ready once the ride begins, and until it ends or is dropped or cancelled. */
  lemma ReadyAfter(s: State, e: Event, r: Ref)
    requires ObjectsAreGood(s) && r in s.rides.cabs && e != Finalize(r)
    ensures r in Next(s, e).rides.cabs
    ensures Next(s, e).rides.cabs[r].isRiderReady
       <==> Begins(s, e, r)
            || (s.rides.cabs[r].isRiderReady
                && !Ends(s, e, r) && !Drops(s, e, r) && !(e.CancelRide? && Concerns(s, e, r)))
  {
    CabsAre(s, e, r);
    assert r != s.nextRef;
    hide NextDeliveries, ObjectsAreGood;
    match e
    case AcceptRide(p, _) =>
    case CancelRide(p) =>
    case RiderReady(p, _, _) =>
    case HeavyUpdate(p, _) =>
    case _ =>
  }

  /** The stand loses exactly a ride that is picked up, and gains exactly a requested one whose identifier is free, and
    * a dropped one whose own is. */
  lemma StandAfter(s: State, e: Event)
    requires ObjectsAreGood(s)
    ensures forall r :: PicksUp(s, e, r) ==> Next(s, e).rides.available == s.rides.available - {e.id}
    ensures forall r :: Drops(s, e, r) ==>
              var job := s.rides.cabs[r].active.value;
              Next(s, e).rides.available
              == if job.id in s.rides.available then s.rides.available else s.rides.available[job.id := job]
    ensures e.CreateRide? && e.riderThere ==>
              var id := NextIdentifier(s.rides.jobId);
              && Next(s, e).rides.jobId == id
              && Next(s, e).rides.available
                 == if id in s.rides.available then s.rides.available
                    else s.rides.available[id := Ride(id, e.rider, e.pickUp, e.location, 100)]
    ensures !(e.CreateRide? && e.riderThere) ==> Next(s, e).rides.jobId == s.rides.jobId
    ensures !(e.CreateRide? && e.riderThere) && (forall r :: !PicksUp(s, e, r) && !Drops(s, e, r)) ==>
              Next(s, e).rides.available == s.rides.available
  {
    if (e.AcceptRide? || e.CancelRide? || e.RiderReady? || e.HeavyUpdate?) && Cabs(s, e.player) {
      var r := s.players[e.player];
      assert Concerns(s, e, r);
      assert !PicksUp(s, e, r) && !Drops(s, e, r) ==> Next(s, e).rides.available == s.rides.available;
    } else if e.Finalize? && e.ref in s.rides.cabs {
      assert Concerns(s, e, e.ref);
      assert !Drops(s, e, e.ref) ==> Next(s, e).rides.available == s.rides.available;
    }
  }

  /** A ride finishes exactly when it ends. */
  lemma FinishedIff(s: State, e: Event)
    requires ObjectsAreGood(s)
    ensures forall r :: Ends(s, e, r) ==>
                          Next(s, e).rides.finished == s.rides.finished + [s.rides.cabs[r].active.value.id]
    ensures (forall r :: !Ends(s, e, r)) ==> Next(s, e).rides.finished == s.rides.finished
  {
    if e.HeavyUpdate? && Cabs(s, e.player) {
      assert Concerns(s, e, s.players[e.player]);
      assert !Ends(s, e, s.players[e.player]) ==> Next(s, e).rides.finished == s.rides.finished;
    }
  }

  /** The identifiers of the rides that a run brings to their ends. */
  function Ended(s: State, events: seq<Event>): seq<nat>
    decreases |events|
  {
    if events == [] then []
    else
      var e := events[0];
      (if e.HeavyUpdate? && e.player in s.players && Ends(s, e, s.players[e.player])
       then [s.rides.cabs[s.players[e.player]].active.value.id] else [])
      + Ended(Next(s, e), events[1..])
  }

  lemma EndsOne(s: State, e: Event)
    ensures forall r :: Ends(s, e, r) ==> e.HeavyUpdate? && e.player in s.players && s.players[e.player] == r
  {
  }

  lemma FinishedOne(s: State, e: Event)
    requires Good(s)
    ensures Next(s, e).rides.finished
         == s.rides.finished + if e.HeavyUpdate? && e.player in s.players && Ends(s, e, s.players[e.player])
                               then [s.rides.cabs[s.players[e.player]].active.value.id] else []
  {
    FinishedIff(s, e);
    EndsOne(s, e);
    hide Next, Ends;
  }

  /** After every run, the finished rides are exactly those brought to their ends, in order. */
  lemma {:induction false} FinishedAreEnded(s: State, events: seq<Event>)
    requires Good(s)
    ensures Run(s, events).rides.finished == s.rides.finished + Ended(s, events)
    decreases |events|
  {
    hide Next, Ends, Good;
    if events != [] {
      FinishedOne(s, events[0]);
      NextIsGood(s, events[0]);
      FinishedAreEnded(Next(s, events[0]), events[1..]);
    }
  }
}
