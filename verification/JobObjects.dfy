/** The objects of the job system, each method proved to take the step that the module Jobs describes. */
module JobObjects {

  import opened Jobs
  import opened Options

  class DeliverySystem {
    var availableJobs: map<nat, Delivery>
    var nextId: nat

    constructor ()
      ensures Deliveries(availableJobs, nextId, map[], []) == Stocked(5)
    {
      availableJobs := map[];
      nextId := 1;
      new;
      for i := 0 to 5
        invariant Deliveries(availableJobs, nextId, map[], []) == Stocked(i)
      {
        StockedIs(i);
        var added := MakeJobAvailable(Delivery(0, DESTINATION, 1, 100 * i));
      }
    }

    method GetJobId() returns (id: nat)
      modifies this`nextId
      ensures id == old(nextId) && nextId == NextIdentifier(old(nextId))
    {
      id := nextId;
      nextId := (nextId + 1) % ID_LIMIT;
    }

    method AssignJob(id: nat) returns (job: Option<Delivery>)
      modifies this`availableJobs
      ensures job == if id in old(availableJobs) then Some(old(availableJobs)[id]) else None
      ensures availableJobs == old(availableJobs) - {id}
    {
      if id in availableJobs {
        job := Some(availableJobs[id]);
        availableJobs := availableJobs - {id};
      } else {
        job := None;
        assert availableJobs - {id} == availableJobs;
      }
    }

    /** The dictionary refuses a key it has. */
    method MakeJobAvailable(job: Delivery) returns (added: bool)
      modifies this
      ensures nextId == NextIdentifier(old(nextId))
      ensures added <==> old(nextId) !in old(availableJobs)
      ensures availableJobs == if added then old(availableJobs)[old(nextId) := job.(id := old(nextId))]
              else old(availableJobs)
    {
      var id := GetJobId();
      added := id !in availableJobs;
      if added {
        availableJobs := availableJobs[id := job.(id := id)];
      }
    }
  }

  class DeliveryDriver {
    var activeJob: Option<Delivery>

    constructor ()
      ensures activeJob == None
    {
      activeJob := None;
    }

    /** The driver with its board. */
    ghost function Slice(system: DeliverySystem): Deliveries
      reads this, system
    {
      Deliveries(system.availableJobs, system.nextId, map[0 := activeJob], [])
    }

    /** Fails when the board refuses the identifier. */
    method CancelJob(system: DeliverySystem) returns (ok: bool)
      modifies this, system
      ensures ok <==> !old(DeliveryStuck(Slice(system), 0))
      ensures Slice(system) == DeliveryCancelled(old(Slice(system)), 0)
    {
      var job := activeJob;
      ok := true;
      if job.Some? {
        ok := system.MakeJobAvailable(job.value);
        if !ok {
          return;
        }
        activeJob := None;
        assert Slice(system).drivers == old(Slice(system)).drivers[0 := None];
      }
    }

    method AcceptJob(system: DeliverySystem, id: nat)
      modifies this, system
      ensures Slice(system) == DeliveryAccepted(old(Slice(system)), 0, id)
    {
      if activeJob.Some? {
        return;
      }
      var job := system.AssignJob(id);
      if job.None? {
        assert system.availableJobs == old(system.availableJobs);
        return;
      }
      activeJob := job;
      assert Slice(system).drivers == old(Slice(system)).drivers[0 := activeJob];
    }

    /** Within reach of the destination, the fees are paid out. A driver that is not there fails. */
    method HeavyUpdate(system: DeliverySystem, o: Senses) returns (ok: bool, paid: seq<nat>)
      modifies this
      ensures ok <==> old(activeJob).None? || o.driverThere
      ensures var pays := old(activeJob).Some? && o.driverThere && o.arrived;
              && paid == (if pays then [old(activeJob).value.fees] else [])
              && activeJob == (if pays then None else old(activeJob))
      ensures Slice(system).(paid := paid) == DeliveryUpdated(old(Slice(system)), 0, o)
    {
      ok, paid := true, [];
      if activeJob.Some? {
        if !o.driverThere {
          return false, [];
        }
        if o.arrived {
          paid := [activeJob.value.fees];
          activeJob := None;
          assert Slice(system).drivers == old(Slice(system)).drivers[0 := None];
        }
      }
    }
  }

  class TaxiServer {
    var availableJobs: map<nat, Ride>
    var jobId: nat

    constructor ()
      ensures availableJobs == map[] && jobId == 0
    {
      availableJobs := map[];
      jobId := 0;
    }

    /** A rider who is gone has no position to be picked up at, and the request fails before it gets an identifier. */
    method CreateJob(rider: Player, riderThere: bool, pickUp: Location, location: Location) returns (added: bool)
      modifies this
      ensures added <==> riderThere && NextIdentifier(old(jobId)) !in old(availableJobs)
      ensures jobId == if riderThere then NextIdentifier(old(jobId)) else old(jobId)
      ensures availableJobs == if added then old(availableJobs)[jobId := Ride(jobId, rider, pickUp, location, 100)]
                               else old(availableJobs)
    {
      if !riderThere {
        return false;
      }
      jobId := (jobId + 1) % ID_LIMIT;
      added := jobId !in availableJobs;
      if added {
        availableJobs := availableJobs[jobId := Ride(jobId, rider, pickUp, location, 100)];
      }
    }

    method AssignJob(id: nat) returns (job: Option<Ride>)
      modifies this`availableJobs
      ensures job == if id in old(availableJobs) then Some(old(availableJobs)[id]) else None
      ensures availableJobs == old(availableJobs) - {id}
    {
      if id in availableJobs {
        job := Some(availableJobs[id]);
        availableJobs := availableJobs - {id};
      } else {
        job := None;
        assert availableJobs - {id} == availableJobs;
      }
    }
  }

  class Taxi {
    var activeJob: Option<Ride>
    var isRiderReady: bool

    /** The taxi with the stand. */
    ghost function Slice(server: TaxiServer): Rides
      reads this, server
    {
      Rides(server.availableJobs, server.jobId, map[0 := Cab(activeJob, isRiderReady)], [])
    }

    constructor ()
      ensures activeJob == None && !isRiderReady
    {
      activeJob := None;
      isRiderReady := false;
    }

    /** Fails when the stand refuses the identifier. */
    method CancelJob(server: TaxiServer) returns (ok: bool)
      modifies this, server`availableJobs
      ensures ok <==> !old(RideStuck(Slice(server), 0))
      ensures Slice(server) == RideCancelled(old(Slice(server)), 0)
    {
      var job := activeJob;
      isRiderReady := false;
      ok := true;
      if job.Some? {
        if job.value.id in server.availableJobs {
          assert Slice(server).cabs == old(Slice(server)).cabs[0 := Cab(job, false)];
          return false;
        }
        server.availableJobs := server.availableJobs[job.value.id := job.value];
        activeJob := None;
      }
      assert Slice(server).cabs == old(Slice(server)).cabs[0 := Cab(None, false)];
    }

    method AcceptJob(server: TaxiServer, id: nat)
      modifies this, server`availableJobs
      ensures Slice(server) == RideAccepted(old(Slice(server)), 0, id)
    {
      if activeJob.Some? {
        return;
      }
      var job := server.AssignJob(id);
      if job.None? {
        assert server.availableJobs == old(server.availableJobs);
        return;
      }
      activeJob := job;
      assert Slice(server).cabs == old(Slice(server)).cabs[0 := Cab(activeJob, isRiderReady)];
    }

    /** Fails when the stand refuses the identifier, and when the driver is not there to be told. */
    method RiderReady(server: TaxiServer, riderThere: bool, driverThere: bool) returns (ok: bool)
      modifies this, server`availableJobs
      ensures ok <==> old(activeJob).None? || (if riderThere then driverThere else !old(RideStuck(Slice(server), 0)))
      ensures Slice(server) == RideReady(old(Slice(server)), 0, riderThere, driverThere)
    {
      if activeJob.None? {
        return true;
      }
      if !riderThere {
        ok := CancelJob(server);
        return;
      }
      if !driverThere {
        return false;
      }
      isRiderReady := true;
      ok := true;
      assert Slice(server).cabs == old(Slice(server)).cabs[0 := Cab(activeJob, true)];
    }

    /** The rider's absence cancels a ride that has not begun; a ride that has begun ends at its
      * destination, once the rider, if still there, is out of the taxi. It fails when a ride cannot
      * be put back, and when the driver is not there any more once the ride has begun. */
    method HeavyUpdate(server: TaxiServer, o: Senses) returns (ok: bool, done: seq<nat>)
      modifies this, server`availableJobs
      ensures ok <==> !old(UpdateStuck(Slice(server), 0, o))
                      && (o.driverThere || old(activeJob).None? || !old(isRiderReady))
      ensures Slice(server).(finished := done) == RideUpdated(old(Slice(server)), 0, o)
      ensures done != [] <==> old(activeJob).Some? && old(isRiderReady) && o.driverThere && o.arrived
                              && !(o.riderThere && o.together)
    {
      ok, done := true, [];
      if activeJob.None? {
        return;
      }
      if !isRiderReady {
        if !o.driverThere {
          ok := CancelJob(server);
          return;
        }
        if !o.riderThere {
          ok := CancelJob(server);
          return;
        }
        if o.seated && o.together {
          ok := RiderReady(server, true, true);
        }
      } else {
        if !o.driverThere {
          return false, [];
        }
        if o.arrived {
          if o.riderThere && o.together {
            return;
          }
          done := [activeJob.value.id];
          activeJob := None;
          isRiderReady := false;
          assert Slice(server).cabs == old(Slice(server)).cabs[0 := Cab(None, false)];
        }
      }
    }
  }

  /** The periodic update of a player's job object fails: it is a police job, or its driver is gone
    * in the middle of a job, or its ride cannot be put back. */
  predicate Throws(s: State, p: Player, o: Senses) {
    p in s.players
    && if Drives(s, p) then DriverThrows(s.deliveries, s.players[p], o)
       else if Cabs(s, p) then CabThrows(s.rides, s.players[p], o)
       else true
  }

  predicate DriverThrows(d: Deliveries, r: Ref, o: Senses)
    requires r in d.drivers
  {
    d.drivers[r].Some? && !o.driverThere
  }

  predicate CabThrows(t: Rides, r: Ref, o: Senses)
    requires r in t.cabs
  {
    UpdateStuck(t, r, o) || (t.cabs[r].active.Some? && t.cabs[r].isRiderReady && !o.driverThere)
  }

  /** A ride would begin with nobody there to drive. */
  predicate Unheard(s: State, p: Player, riderThere: bool, driverThere: bool) {
    Cabs(s, p) && s.rides.cabs[s.players[p]].active.Some? && riderThere && !driverThere
  }

  predicate NotReady(t: Rides, r: Ref, riderThere: bool, driverThere: bool)
    requires r in t.cabs
  {
    t.cabs[r].active.Some? && if riderThere then !driverThere else RideStuck(t, r)
  }

  class JobManager {
    const deliverySystem: DeliverySystem
    const taxiServer: TaxiServer
    var playerJobs: map<Player, Ref>

    /** Every job object that has not been collected. */
    var drivers: map<Ref, DeliveryDriver>
    var taxis: map<Ref, Taxi>
    var nextRef: nat

    /** What has been paid out, and the rides that have ended. */
    ghost var paid: seq<nat>
    ghost var finished: seq<nat>

    ghost function Contents(): (s: State)
      reads this, deliverySystem, taxiServer, drivers.Values, taxis.Values
      ensures s == State(Board(), Stand(), playerJobs, nextRef)
    {
      State(Board(), Stand(), playerJobs, nextRef)
    }

    ghost function Board(): Deliveries
      reads this`drivers, this`paid, deliverySystem, drivers.Values
    {
      Deliveries(deliverySystem.availableJobs, deliverySystem.nextId, Held(), paid)
    }

    ghost function Stand(): Rides
      reads this`taxis, this`finished, taxiServer, taxis.Values
    {
      Rides(taxiServer.availableJobs, taxiServer.jobId, Fares(), finished)
    }

    ghost function Held(): map<Ref, Option<Delivery>>
      reads this`drivers, drivers.Values
    {
      map r | r in drivers :: drivers[r].activeJob
    }

    ghost function Fares(): map<Ref, Cab>
      reads this`taxis, taxis.Values
    {
      map r | r in taxis :: Cab(taxis[r].activeJob, taxis[r].isRiderReady)
    }

    /** Objects with different numbers are different, no object has two kinds, and the next number is new. */
    ghost predicate Valid()
      reads this`drivers, this`taxis, this`nextRef
    {
      Apart() && Numbered()
    }

    ghost predicate Apart()
      reads this`drivers, this`taxis
    {
      (forall r <- drivers, q <- drivers :: r != q ==> drivers[r] != drivers[q])
      && (forall r <- taxis, q <- taxis :: r != q ==> taxis[r] != taxis[q])
    }

    ghost predicate Numbered()
      reads this`drivers, this`taxis, this`nextRef
    {
      (forall r <- drivers :: r < nextRef && r !in taxis) && (forall r <- taxis :: r < nextRef)
    }

    constructor ()
      ensures Valid() && Contents() == Start()
    {
      hide Stocked;
      deliverySystem := new DeliverySystem();
      taxiServer := new TaxiServer();
      playerJobs := map[];
      drivers := map[];
      taxis := map[];
      nextRef := 0;
      paid := [];
      finished := [];
      new;
      assert Held() == map[] && Fares() == map[];
      assert Contents().deliveries == Stocked(5);
    }

    lemma ThoseHeld()
      ensures Board().drivers.Keys == drivers.Keys && Stand().cabs.Keys == taxis.Keys
      ensures Contents().players == playerJobs
    {
    }

    // ----- The players' requests

    method SetJob(p: Player, name: Name)
      requires Valid()
      modifies this
      ensures Contents() == Next(old(Contents()), Event.SetJob(p, name))
      ensures Valid()
    {
      ghost var s := Contents();
      SetJobSteps(s, p, name);
      hide *;
      if p in playerJobs || name == UnknownName {
        return;
      }
      var r := Create(name);
      playerJobs := playerJobs[p := r];
    }

    /** A new job object of the registered kind. */
    method Create(name: Name) returns (r: Ref)
      requires Valid() && name != UnknownName
      modifies this`drivers, this`taxis, this`nextRef
      ensures r == old(nextRef) && Valid()
      ensures Contents() == Created(old(Contents()), name)
    {
      CreatedSteps(Contents(), name);
      hide *;
      r := nextRef;
      match name {
        case DeliveryName =>
          CreateDriver();
        case TaxiName =>
          CreateTaxi();
        case PoliceName =>
          CreatePolice();
      }
    }

    method CreateDriver()
      requires Valid()
      modifies this`drivers, this`nextRef
      ensures Valid() && nextRef == old(nextRef) + 1
      ensures Board() == WithDriver(old(Board()), old(nextRef))
    {
      var job := new DeliveryDriver();
      drivers := drivers[nextRef := job];
      nextRef := nextRef + 1;
      assert Held() == old(Held())[old(nextRef) := None];
    }

    method CreateTaxi()
      requires Valid()
      modifies this`taxis, this`nextRef
      ensures Valid() && nextRef == old(nextRef) + 1
      ensures Stand() == WithCab(old(Stand()), old(nextRef))
    {
      var job := new Taxi();
      taxis := taxis[nextRef := job];
      nextRef := nextRef + 1;
      assert Fares() == old(Fares())[old(nextRef) := Cab(None, false)];
    }

    method CreatePolice()
      requires Valid()
      modifies this`nextRef
      ensures Valid() && nextRef == old(nextRef) + 1
    {
      nextRef := nextRef + 1;
    }

    /** Quitting and leaving forget the job object; its job stays with it. */
    method Quit(p: Player)
      requires Valid()
      modifies this`playerJobs
      ensures Contents() == Next(old(Contents()), Event.Quit(p))
      ensures Valid()
    {
      QuitSteps(Contents(), p);
      ThoseHeld();
      hide *;
      playerJobs := playerJobs - {p};
    }

    method AcceptDelivery(p: Player, id: nat)
      requires Valid()
      modifies deliverySystem, drivers.Values
      ensures Contents() == Next(old(Contents()), Event.AcceptDelivery(p, id))
      ensures Valid()
    {
      AcceptDeliverySteps(Contents(), p, id);
      ThoseHeld();
      hide *;
      if p in playerJobs && playerJobs[p] in drivers {
        AcceptDriver(playerJobs[p], id);
      }
    }

    /** Fails exactly when the board refuses the identifier. */
    method CancelDelivery(p: Player) returns (ok: bool)
      requires Valid()
      modifies deliverySystem, drivers.Values
      ensures ok <==> !Collides(old(Contents()), Event.CancelDelivery(p))
      ensures Contents() == Next(old(Contents()), Event.CancelDelivery(p))
      ensures Valid()
    {
      CancelDeliverySteps(Contents(), p);
      ThoseHeld();
      hide *;
      ok := true;
      if p in playerJobs && playerJobs[p] in drivers {
        ok := CancelDriver(playerJobs[p]);
      }
    }

    /** Fails exactly when the rider is gone, or the stand refuses the identifier. */
    method CreateRide(rider: Player, riderThere: bool, pickUp: Location, location: Location) returns (ok: bool)
      requires Valid()
      modifies taxiServer
      ensures ok <==> riderThere && !Collides(old(Contents()), Event.CreateRide(rider, riderThere, pickUp, location))
      ensures Contents() == Next(old(Contents()), Event.CreateRide(rider, riderThere, pickUp, location))
      ensures Valid()
    {
      CreateRideSteps(Contents(), rider, riderThere, pickUp, location);
      hide *;
      ok := CreateFare(rider, riderThere, pickUp, location);
    }

    method CreateFare(rider: Player, riderThere: bool, pickUp: Location, location: Location) returns (ok: bool)
      modifies taxiServer
      ensures ok <==> riderThere && NextIdentifier(old(Stand()).jobId) !in old(Stand()).available
      ensures Stand() == if riderThere then RideCreated(old(Stand()), rider, pickUp, location) else old(Stand())
    {
      ok := taxiServer.CreateJob(rider, riderThere, pickUp, location);
    }

    method AcceptRide(p: Player, id: nat)
      requires Valid()
      modifies taxiServer, taxis.Values
      ensures Contents() == Next(old(Contents()), Event.AcceptRide(p, id))
      ensures Valid()
    {
      AcceptRideSteps(Contents(), p, id);
      ThoseHeld();
      hide *;
      if p in playerJobs && playerJobs[p] in taxis {
        AcceptTaxi(playerJobs[p], id);
      }
    }

    /** Fails exactly when the stand refuses the identifier. */
    method CancelRide(p: Player) returns (ok: bool)
      requires Valid()
      modifies taxiServer, taxis.Values
      ensures ok <==> !Collides(old(Contents()), Event.CancelRide(p))
      ensures Contents() == Next(old(Contents()), Event.CancelRide(p))
      ensures Valid()
    {
      CancelRideSteps(Contents(), p);
      ThoseHeld();
      hide *;
      ok := true;
      if p in playerJobs && playerJobs[p] in taxis {
        ok := CancelTaxi(playerJobs[p]);
      }
    }

    /** Fails exactly when the ride cannot be put back, or the driver is not there to be told that it begins. */
    method RiderReady(p: Player, riderThere: bool, driverThere: bool) returns (ok: bool)
      requires Valid()
      modifies taxiServer, taxis.Values
      ensures ok <==> !Collides(old(Contents()), Event.RiderReady(p, riderThere, driverThere))
                      && !Unheard(old(Contents()), p, riderThere, driverThere)
      ensures Contents() == Next(old(Contents()), Event.RiderReady(p, riderThere, driverThere))
      ensures Valid()
    {
      RiderReadySteps(Contents(), p, riderThere, driverThere);
      ThoseHeld();
      hide *;
      ok := true;
      if p in playerJobs && playerJobs[p] in taxis {
        ok := ReadyTaxi(playerJobs[p], riderThere, driverThere);
      }
    }

    // ----- The periodic update

    /** Updates the job objects of all players, in some order, until one of them fails. */
    method HeavyUpdate(senses: map<Player, Senses>) returns (completed: bool, ghost order: seq<Player>)
      requires Valid()
      modifies this`paid, this`finished, taxiServer, drivers.Values, taxis.Values
      ensures Contents() == Run(old(Contents()), Updates(order, senses))
      ensures Valid()
      ensures forall i, j :: 0 <= i < j < |order| ==> order[i] != order[j]
      ensures if completed then (set p | p in order) == playerJobs.Keys
              else |order| > 0
                   && var before, last := order[..|order| - 1], order[|order| - 1];
                      Throws(Run(old(Contents()), Updates(before, senses)), last, SensesOf(senses, last))
    {
      NoUpdates(Contents(), senses);
      hide *;
      var todo := playerJobs.Keys;
      order := [];
      while todo != {}
        invariant Valid() && playerJobs == old(playerJobs) && drivers == old(drivers) && taxis == old(taxis)
        invariant Contents() == Run(old(Contents()), Updates(order, senses))
        invariant todo <= playerJobs.Keys && (set p | p in order) == playerJobs.Keys - todo
        invariant forall i, j :: 0 <= i < j < |order| ==> order[i] != order[j]
      {
        var p :| p in todo;
        UpdatesMore(old(Contents()), order, p, senses);
        SetOfMore(order, p);
        DistinctMore(order, p);
        var ok := UpdateOne(p, SensesOf(senses, p));
        ghost var before := order;
        order := order + [p];
        assert order[..|order| - 1] == before;
        if !ok {
          return false, order;
        }
        ghost var left := todo;
        todo := todo - {p};
        assert playerJobs.Keys - todo == playerJobs.Keys - left + {p};
      }
      completed := true;
    }

    method UpdateOne(p: Player, o: Senses) returns (ok: bool)
      requires Valid() && p in playerJobs
      modifies this`paid, this`finished, taxiServer, drivers.Values, taxis.Values
      ensures ok <==> !Throws(old(Contents()), p, o)
      ensures Contents() == Next(old(Contents()), Event.HeavyUpdate(p, o))
      ensures Valid()
    {
      ThoseHeld();
      UpdateSteps(Contents(), p, o);
      hide *;
      var r := playerJobs[p];
      if r in drivers {
        ok := UpdateDelivery(r, o);
      } else if r in taxis {
        ok := UpdateRide(r, o);
      } else {
        ok := false;
      }
    }

    method UpdateDelivery(r: Ref, o: Senses) returns (ok: bool)
      requires Valid() && r in drivers
      modifies this`paid, drivers.Values
      ensures Valid() && r in old(Contents()).deliveries.drivers
      ensures ok <==> !DriverThrows(old(Contents()).deliveries, r, o)
      ensures Contents() == old(Contents()).(deliveries := DeliveryUpdated(old(Contents()).deliveries, r, o))
    {
      hide *;
      ok := UpdateDriver(r, o);
    }

    method UpdateRide(r: Ref, o: Senses) returns (ok: bool)
      requires Valid() && r in taxis
      modifies this`finished, taxiServer, taxis.Values
      ensures Valid() && r in old(Contents()).rides.cabs
      ensures ok <==> !CabThrows(old(Contents()).rides, r, o)
      ensures Contents() == old(Contents()).(rides := RideUpdated(old(Contents()).rides, r, o))
    {
      hide *;
      ok := UpdateTaxi(r, o);
    }

    // ----- The finalizers

    /** The collector finalizes a delivery driver: its delivery goes back if it can, and the object is gone.
      * `ok` says whether the delivery, if any, went back. */
    method FinalizeDriver(r: Ref) returns (ok: bool)
      requires Valid() && r in drivers
      modifies this`drivers, deliverySystem, drivers.Values
      ensures ok <==> !Collides(old(Contents()), Event.Finalize(r))
      ensures Contents() == Next(old(Contents()), Event.Finalize(r))
      ensures Valid()
    {
      ThoseHeld();
      FinalizeDriverSteps(Contents(), r);
      hide *;
      ok := EndDriver(r);
    }

    method EndDriver(r: Ref) returns (ok: bool)
      requires Valid() && r in drivers
      modifies this`drivers, deliverySystem, drivers.Values
      ensures Valid() && r in old(Board()).drivers
      ensures ok <==> !DeliveryStuck(old(Board()), r)
      ensures Board() == DriverFinalized(old(Board()), r)
    {
      ok := CancelDriver(r);
      hide DeliveryCancelled, DeliveryStuck, Board, Valid;
      DropDriver(r);
    }

    method DropDriver(r: Ref)
      requires Valid()
      modifies this`drivers
      ensures Valid() && Board() == old(Board()).(drivers := old(Board()).drivers - {r})
    {
      drivers := drivers - {r};
      assert Held() == old(Held()) - {r};
    }

    method FinalizeTaxi(r: Ref) returns (ok: bool)
      requires Valid() && r in taxis
      modifies this`taxis, taxiServer, taxis.Values
      ensures ok <==> !Collides(old(Contents()), Event.Finalize(r))
      ensures Contents() == Next(old(Contents()), Event.Finalize(r))
      ensures Valid()
    {
      ThoseHeld();
      FinalizeTaxiSteps(Contents(), r);
      hide *;
      ok := EndTaxi(r);
    }

    method EndTaxi(r: Ref) returns (ok: bool)
      requires Valid() && r in taxis
      modifies this`taxis, taxiServer, taxis.Values
      ensures Valid() && r in old(Stand()).cabs
      ensures ok <==> !RideStuck(old(Stand()), r)
      ensures Stand() == CabFinalized(old(Stand()), r)
    {
      ok := CancelTaxi(r);
      hide RideCancelled, RideStuck, Stand, Valid;
      DropTaxi(r);
    }

    method DropTaxi(r: Ref)
      requires Valid()
      modifies this`taxis
      ensures Valid() && Stand() == old(Stand()).(cabs := old(Stand()).cabs - {r})
    {
      taxis := taxis - {r};
      assert Fares() == old(Fares()) - {r};
    }

    // ----- One object and its board or stand

    method AcceptDriver(r: Ref, id: nat)
      requires Valid() && r in drivers
      modifies deliverySystem, drivers.Values
      ensures Valid() && r in old(Board()).drivers
      ensures Board() == DeliveryAccepted(old(Board()), r, id)
    {
      ThoseHeld();
      hide Apart, Numbered, DeliveryAccepted;
      DriverActsOnSlice(Board(), r, id, NOTHING);
      drivers[r].AcceptJob(deliverySystem, id);
      DriverChanged(r);
    }

    method CancelDriver(r: Ref) returns (ok: bool)
      requires Valid() && r in drivers
      modifies deliverySystem, drivers.Values
      ensures Valid() && r in old(Board()).drivers
      ensures ok <==> !DeliveryStuck(old(Board()), r)
      ensures Board() == DeliveryCancelled(old(Board()), r)
    {
      ThoseHeld();
      hide Apart, Numbered, DeliveryCancelled;
      DriverActsOnSlice(Board(), r, 0, NOTHING);
      ok := drivers[r].CancelJob(deliverySystem);
      DriverChanged(r);
    }

    method UpdateDriver(r: Ref, o: Senses) returns (ok: bool)
      requires Valid() && r in drivers
      modifies this`paid, drivers.Values
      ensures Valid() && r in old(Board()).drivers
      ensures ok <==> !DriverThrows(old(Board()), r, o)
      ensures Board() == DeliveryUpdated(old(Board()), r, o)
    {
      var fees;
      ok, fees := DriveOn(r, o);
      hide *;
      Pay(fees);
    }

    method DriveOn(r: Ref, o: Senses) returns (ok: bool, fees: seq<nat>)
      requires Valid() && r in drivers
      modifies drivers.Values
      ensures Valid() && r in old(Board()).drivers
      ensures ok <==> !DriverThrows(old(Board()), r, o)
      ensures Board().(paid := Board().paid + fees) == DeliveryUpdated(old(Board()), r, o)
    {
      ThoseHeld();
      hide Apart, Numbered, DeliveryUpdated;
      DriverActsOnSlice(Board(), r, 0, o);
      ok, fees := drivers[r].HeavyUpdate(deliverySystem, o);
      DriverChanged(r);
    }

    ghost method Pay(fees: seq<nat>)
      modifies this`paid
      ensures Board() == old(Board()).(paid := old(Board()).paid + fees)
    {
      paid := paid + fees;
    }

    method AcceptTaxi(r: Ref, id: nat)
      requires Valid() && r in taxis
      modifies taxiServer, taxis.Values
      ensures Valid() && r in old(Stand()).cabs
      ensures Stand() == RideAccepted(old(Stand()), r, id)
    {
      ThoseHeld();
      hide Apart, Numbered, RideAccepted;
      CabActsOnSlice(Stand(), r, id, false, false, NOTHING);
      taxis[r].AcceptJob(taxiServer, id);
      TaxiChanged(r);
    }

    method CancelTaxi(r: Ref) returns (ok: bool)
      requires Valid() && r in taxis
      modifies taxiServer, taxis.Values
      ensures Valid() && r in old(Stand()).cabs
      ensures ok <==> !RideStuck(old(Stand()), r)
      ensures Stand() == RideCancelled(old(Stand()), r)
    {
      ThoseHeld();
      hide Apart, Numbered, RideCancelled;
      CabActsOnSlice(Stand(), r, 0, false, false, NOTHING);
      ok := taxis[r].CancelJob(taxiServer);
      TaxiChanged(r);
    }

    method ReadyTaxi(r: Ref, riderThere: bool, driverThere: bool) returns (ok: bool)
      requires Valid() && r in taxis
      modifies taxiServer, taxis.Values
      ensures Valid() && r in old(Stand()).cabs
      ensures ok <==> !NotReady(old(Stand()), r, riderThere, driverThere)
      ensures Stand() == RideReady(old(Stand()), r, riderThere, driverThere)
    {
      ThoseHeld();
      hide Apart, Numbered, RideReady;
      CabActsOnSlice(Stand(), r, 0, riderThere, driverThere, NOTHING);
      ok := taxis[r].RiderReady(taxiServer, riderThere, driverThere);
      TaxiChanged(r);
    }

    method UpdateTaxi(r: Ref, o: Senses) returns (ok: bool)
      requires Valid() && r in taxis
      modifies this`finished, taxiServer, taxis.Values
      ensures Valid() && r in old(Stand()).cabs
      ensures ok <==> !CabThrows(old(Stand()), r, o)
      ensures Stand() == RideUpdated(old(Stand()), r, o)
    {
      var done;
      ok, done := RideOn(r, o);
      hide *;
      Record(done);
    }

    method RideOn(r: Ref, o: Senses) returns (ok: bool, done: seq<nat>)
      requires Valid() && r in taxis
      modifies taxiServer, taxis.Values
      ensures Valid() && r in old(Stand()).cabs
      ensures ok <==> !CabThrows(old(Stand()), r, o)
      ensures Stand().(finished := Stand().finished + done) == RideUpdated(old(Stand()), r, o)
    {
      ThoseHeld();
      hide Apart, Numbered, RideUpdated;
      CabActsOnSlice(Stand(), r, 0, false, false, o);
      ok, done := taxis[r].HeavyUpdate(taxiServer, o);
      TaxiChanged(r);
    }

    ghost method Record(done: seq<nat>)
      modifies this`finished
      ensures Stand() == old(Stand()).(finished := old(Stand()).finished + done)
    {
      finished := finished + done;
    }

    // ----- What a change of one object is to the whole

    twostate lemma DriverChanged(r: Ref)
      requires old(Apart()) && r in drivers && unchanged(this)
      requires unchanged(drivers.Values - {drivers[r]})
      ensures Apart() && r in old(Board()).drivers
      ensures Board() == WithDriverSlice(old(Board()), r, drivers[r].Slice(deliverySystem))
      ensures DriverSlice(old(Board()), r) == old(drivers[r].Slice(deliverySystem))
    {
      assert old(paid) + [] == paid;
      assert Held() == old(Held())[r := drivers[r].activeJob];
    }

    twostate lemma TaxiChanged(r: Ref)
      requires old(Apart()) && r in taxis && unchanged(this)
      requires unchanged(taxis.Values - {taxis[r]})
      ensures Apart() && r in old(Stand()).cabs
      ensures Stand() == WithCabSlice(old(Stand()), r, taxis[r].Slice(taxiServer))
      ensures CabSlice(old(Stand()), r) == old(taxis[r].Slice(taxiServer))
    {
      assert old(finished) + [] == finished;
      assert Fares() == old(Fares())[r := Cab(taxis[r].activeJob, taxis[r].isRiderReady)];
    }
  }

  function SensesOf(senses: map<Player, Senses>, p: Player): Senses {
    if p in senses then senses[p] else NOTHING
  }

  function Updates(order: seq<Player>, senses: map<Player, Senses>): seq<Event> {
    seq(|order|, i requires 0 <= i < |order| => HeavyUpdate(order[i], SensesOf(senses, order[i])))
  }

  lemma SetOfMore(order: seq<Player>, p: Player)
    ensures (set q | q in order + [p]) == (set q | q in order) + {p}
  {
  }

  lemma DistinctMore(order: seq<Player>, p: Player)
    requires forall i, j :: 0 <= i < j < |order| ==> order[i] != order[j]
    requires p !in order
    ensures forall i, j :: 0 <= i < j < |order + [p]| ==> (order + [p])[i] != (order + [p])[j]
  {
  }

  lemma NoUpdates(s: State, senses: map<Player, Senses>)
    ensures Run(s, Updates([], senses)) == s
  {
  }

  lemma UpdatesMore(s: State, order: seq<Player>, p: Player, senses: map<Player, Senses>)
    ensures Run(s, Updates(order + [p], senses))
            == Next(Run(s, Updates(order, senses)), HeavyUpdate(p, SensesOf(senses, p)))
  {
    assert Updates(order + [p], senses) == Updates(order, senses) + [HeavyUpdate(p, SensesOf(senses, p))];
    RunMore(s, Updates(order, senses), HeavyUpdate(p, SensesOf(senses, p)));
  }

  lemma {:induction false} RunMore(s: State, events: seq<Event>, e: Event)
    ensures Run(s, events + [e]) == Next(Run(s, events), e)
    decreases |events|
  {
    hide Next;
    if events == [] {
      assert (events + [e])[1..] == [];
    } else {
      assert (events + [e])[1..] == events[1..] + [e];
      RunMore(Next(s, events[0]), events[1..], e);
    }
  }

  // ----- The steps, one event at a time

  lemma CreatedSteps(s: State, name: Name)
    ensures Created(s, name) == match name
                                case DeliveryName =>
                                  s.(deliveries := WithDriver(s.deliveries, s.nextRef), nextRef := s.nextRef + 1)
                                case TaxiName => s.(rides := WithCab(s.rides, s.nextRef), nextRef := s.nextRef + 1)
                                case _ => s.(nextRef := s.nextRef + 1)
  {
  }

  lemma SetJobSteps(s: State, p: Player, name: Name)
    ensures Next(s, SetJob(p, name)) == if p in s.players || name == UnknownName then s
                                        else Created(s, name).(players := s.players[p := s.nextRef])
  {
  }

  lemma QuitSteps(s: State, p: Player)
    ensures Next(s, Quit(p)) == s.(players := s.players - {p})
  {
  }

  lemma AcceptDeliverySteps(s: State, p: Player, id: nat)
    ensures Next(s, AcceptDelivery(p, id))
            == if p in s.players && s.players[p] in s.deliveries.drivers
               then s.(deliveries := DeliveryAccepted(s.deliveries, s.players[p], id)) else s
  {
  }

  lemma CancelDeliverySteps(s: State, p: Player)
    ensures Next(s, CancelDelivery(p)) == if p in s.players && s.players[p] in s.deliveries.drivers
                                          then s.(deliveries := DeliveryCancelled(s.deliveries, s.players[p])) else s
    ensures Collides(s, CancelDelivery(p)) <==> p in s.players && s.players[p] in s.deliveries.drivers
                                                && DeliveryStuck(s.deliveries, s.players[p])
  {
  }

  lemma CreateRideSteps(s: State, rider: Player, there: bool, pickUp: Location, location: Location)
    ensures Next(s, CreateRide(rider, there, pickUp, location))
            == if there then s.(rides := RideCreated(s.rides, rider, pickUp, location)) else s
    ensures Collides(s, CreateRide(rider, there, pickUp, location))
            <==> there && NextIdentifier(s.rides.jobId) in s.rides.available
  {
  }

  lemma AcceptRideSteps(s: State, p: Player, id: nat)
    ensures Next(s, AcceptRide(p, id)) == if p in s.players && s.players[p] in s.rides.cabs
                                          then s.(rides := RideAccepted(s.rides, s.players[p], id)) else s
  {
  }

  lemma CancelRideSteps(s: State, p: Player)
    ensures Next(s, CancelRide(p)) == if p in s.players && s.players[p] in s.rides.cabs
                                      then s.(rides := RideCancelled(s.rides, s.players[p])) else s
    ensures Collides(s, CancelRide(p))
            <==> p in s.players && s.players[p] in s.rides.cabs && RideStuck(s.rides, s.players[p])
  {
  }

  lemma RiderReadySteps(s: State, p: Player, there: bool, driver: bool)
    ensures Next(s, RiderReady(p, there, driver))
            == if p in s.players && s.players[p] in s.rides.cabs
               then s.(rides := RideReady(s.rides, s.players[p], there, driver)) else s
    ensures Collides(s, RiderReady(p, there, driver)) || Unheard(s, p, there, driver)
            <==> p in s.players && s.players[p] in s.rides.cabs && NotReady(s.rides, s.players[p], there, driver)
  {
  }

  lemma UpdateSteps(s: State, p: Player, o: Senses)
    requires s.deliveries.drivers.Keys !! s.rides.cabs.Keys && p in s.players
    ensures var r := s.players[p];
            Next(s, HeavyUpdate(p, o))
            == if r in s.deliveries.drivers then s.(deliveries := DeliveryUpdated(s.deliveries, r, o))
               else if r in s.rides.cabs then s.(rides := RideUpdated(s.rides, r, o))
               else s
    ensures var r := s.players[p];
            Throws(s, p, o) <==> if r in s.deliveries.drivers then DriverThrows(s.deliveries, r, o)
                                 else if r in s.rides.cabs then CabThrows(s.rides, r, o)
                                 else true
  {
    hide DeliveryUpdated, RideUpdated, DriverThrows, CabThrows;
  }

  lemma FinalizeDriverSteps(s: State, r: Ref)
    requires s.deliveries.drivers.Keys !! s.rides.cabs.Keys && r in s.deliveries.drivers
    ensures Next(s, Finalize(r)) == s.(deliveries := DriverFinalized(s.deliveries, r))
    ensures Collides(s, Finalize(r)) <==> DeliveryStuck(s.deliveries, r)
  {
  }

  lemma FinalizeTaxiSteps(s: State, r: Ref)
    requires s.deliveries.drivers.Keys !! s.rides.cabs.Keys && r in s.rides.cabs
    ensures Next(s, Finalize(r)) == s.(rides := CabFinalized(s.rides, r))
    ensures Collides(s, Finalize(r)) <==> RideStuck(s.rides, r)
  {
  }
}
