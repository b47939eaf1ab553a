/** Two job boards shared by all players: deliveries and taxi rides. A job is on its board, held by one
  * driver object, or done. Quitting orphans the driver object; its finalizer returns the job later. */
module Jobs {
  import opened Options

  type Player = nat

  /** A driver object, numbered in the order of creation. */
  type Ref = nat

  datatype Location = Location(x: real, y: real, z: real)

  datatype Delivery = Delivery(id: nat, location: Location, count: nat, fees: nat)

  datatype Ride = Ride(id: nat, rider: Player, pickUp: Location, location: Location, reward: nat)

  datatype Name = DeliveryName | TaxiName | PoliceName | UnknownName

  /** Job identifiers are unsigned 32-bit numbers, and their counters wrap around. */
  const ID_LIMIT: nat := 0x1_0000_0000

  // ----- The state as a value

  /** The delivery board; `drivers` are all delivery drivers not yet collected, each with the delivery
    * it holds, and `paid` are the fees of completed deliveries. */
  datatype Deliveries =
    Deliveries(available: map<nat, Delivery>, nextId: nat, drivers: map<Ref, Option<Delivery>>, paid: seq<nat>)

  datatype Cab = Cab(active: Option<Ride>, isRiderReady: bool)

  /** The taxi stand, likewise; `finished` are the identifiers of completed rides. */
  datatype Rides = Rides(available: map<nat, Ride>, jobId: nat, cabs: map<Ref, Cab>, finished: seq<nat>)

  /** `players` says whose a driver object is; an object nobody has is an orphan. */
  datatype State = State(deliveries: Deliveries, rides: Rides, players: map<Player, Ref>, nextRef: nat)

  /** What a driver's periodic update finds out about the world. */
  datatype Senses = Senses(driverThere: bool, riderThere: bool, together: bool, seated: bool, arrived: bool)

  datatype Event =
    | SetJob(player: Player, name: Name)
    | Quit(player: Player)
    | AcceptDelivery(player: Player, id: nat)
    | CancelDelivery(player: Player)
    | CreateRide(rider: Player, riderThere: bool, pickUp: Location, location: Location)
    | AcceptRide(player: Player, id: nat)
    | CancelRide(player: Player)
    | RiderReady(player: Player, riderThere: bool, driverThere: bool)
    | HeavyUpdate(player: Player, senses: Senses)
    | Finalize(ref: Ref)

  function NextIdentifier(id: nat): nat {
    (id + 1) % ID_LIMIT
  }

  // ----- Steps of a delivery driver

  /** Putting the driver's delivery back fails: the board has its next identifier already. */
  predicate DeliveryStuck(d: Deliveries, r: Ref) {
    r in d.drivers && d.drivers[r].Some? && d.nextId in d.available
  }

  function DeliveryAccepted(d: Deliveries, r: Ref, id: nat): Deliveries
    requires r in d.drivers
  {
    if d.drivers[r].Some? || id !in d.available then d
    else d.(available := d.available - {id}, drivers := d.drivers[r := Some(d.available[id])])
  }

  /** The delivery goes back under a new identifier; when that is taken, only the identifier is used up. */
  function DeliveryCancelled(d: Deliveries, r: Ref): Deliveries
    requires r in d.drivers
  {
    match d.drivers[r]
    case None => d
    case Some(job) =>
      var issued := d.(nextId := NextIdentifier(d.nextId));
      if d.nextId in d.available then issued
      else issued.(available := d.available[d.nextId := job.(id := d.nextId)], drivers := d.drivers[r := None])
  }

  function DeliveryUpdated(d: Deliveries, r: Ref, o: Senses): Deliveries
    requires r in d.drivers
  {
    if d.drivers[r].Some? && o.driverThere && o.arrived then
      d.(drivers := d.drivers[r := None], paid := d.paid + [d.drivers[r].value.fees])
    else d
  }

  /** Cancelled if it can be, and gone. */
  function DriverFinalized(d: Deliveries, r: Ref): Deliveries
    requires r in d.drivers
  {
    var c := DeliveryCancelled(d, r);
    c.(drivers := c.drivers - {r})
  }

  function WithDriver(d: Deliveries, r: Ref): Deliveries {
    d.(drivers := d.drivers[r := None])
  }

  // ----- Steps of a taxi

  /** Putting the taxi's ride back fails: the stand has its identifier already. */
  predicate RideStuck(t: Rides, r: Ref) {
    r in t.cabs && t.cabs[r].active.Some? && t.cabs[r].active.value.id in t.available
  }

  function RideCreated(t: Rides, rider: Player, pickUp: Location, location: Location): Rides {
    var id := NextIdentifier(t.jobId);
    if id in t.available then t.(jobId := id)
    else t.(available := t.available[id := Ride(id, rider, pickUp, location, 100)], jobId := id)
  }

  function RideAccepted(t: Rides, r: Ref, id: nat): Rides
    requires r in t.cabs
  {
    if t.cabs[r].active.Some? || id !in t.available then t
    else t.(available := t.available - {id}, cabs := t.cabs[r := t.cabs[r].(active := Some(t.available[id]))])
  }

  /** The ride goes back under its own identifier; when that is taken, only the rider's readiness is forgotten. */
  function RideCancelled(t: Rides, r: Ref): Rides
    requires r in t.cabs
  {
    match t.cabs[r].active
    case None => t.(cabs := t.cabs[r := Cab(None, false)])
    case Some(job) =>
      if job.id in t.available then t.(cabs := t.cabs[r := Cab(Some(job), false)])
      else t.(available := t.available[job.id := job], cabs := t.cabs[r := Cab(None, false)])
  }

  /** Without the rider the ride is cancelled; without the driver nothing comes of it. */
  function RideReady(t: Rides, r: Ref, riderThere: bool, driverThere: bool): Rides
    requires r in t.cabs
  {
    if t.cabs[r].active.None? then t
    else if !riderThere then RideCancelled(t, r)
    else if !driverThere then t
    else t.(cabs := t.cabs[r := t.cabs[r].(isRiderReady := true)])
  }

  function RideFinished(t: Rides, r: Ref): Rides
    requires r in t.cabs && t.cabs[r].active.Some?
  {
    t.(cabs := t.cabs[r := Cab(None, false)], finished := t.finished + [t.cabs[r].active.value.id])
  }

  function RideUpdated(t: Rides, r: Ref, o: Senses): Rides
    requires r in t.cabs
  {
    if t.cabs[r].active.None? then t
    else if !t.cabs[r].isRiderReady then
      if !o.driverThere || !o.riderThere then RideCancelled(t, r)
      else if o.seated && o.together then RideReady(t, r, true, true)
      else t
    else if o.driverThere && o.arrived && !(o.riderThere && o.together) then RideFinished(t, r)
    else t
  }

  function CabFinalized(t: Rides, r: Ref): Rides
    requires r in t.cabs
  {
    var c := RideCancelled(t, r);
    c.(cabs := c.cabs - {r})
  }

  function WithCab(t: Rides, r: Ref): Rides {
    t.(cabs := t.cabs[r := Cab(None, false)])
  }

  // ----- Steps of the whole

  predicate Drives(s: State, p: Player) {
    p in s.players && s.players[p] in s.deliveries.drivers
  }

  predicate Cabs(s: State, p: Player) {
    p in s.players && s.players[p] in s.rides.cabs
  }

  /** A new driver object of some kind, which is nobody's yet. */
  function Created(s: State, name: Name): State {
    var t := s.(nextRef := s.nextRef + 1);
    match name
    case DeliveryName => t.(deliveries := WithDriver(s.deliveries, s.nextRef))
    case TaxiName => t.(rides := WithCab(s.rides, s.nextRef))
    case _ => t
  }

  function JobSet(s: State, p: Player, name: Name): State {
    if p in s.players || name == UnknownName then s
    else Created(s, name).(players := s.players[p := s.nextRef])
  }

  function NextDeliveries(s: State, e: Event): Deliveries {
    var d := s.deliveries;
    match e
    case AcceptDelivery(p, id) => if Drives(s, p) then DeliveryAccepted(d, s.players[p], id) else d
    case CancelDelivery(p) => if Drives(s, p) then DeliveryCancelled(d, s.players[p]) else d
    case HeavyUpdate(p, o) => if Drives(s, p) then DeliveryUpdated(d, s.players[p], o) else d
    case Finalize(r) => if r in d.drivers then DriverFinalized(d, r) else d
    case SetJob(p, name) => JobSet(s, p, name).deliveries
    case _ => d
  }

  function NextRides(s: State, e: Event): Rides {
    var t := s.rides;
    match e
    case CreateRide(rider, there, pickUp, location) => if there then RideCreated(t, rider, pickUp, location) else t
    case AcceptRide(p, id) => if Cabs(s, p) then RideAccepted(t, s.players[p], id) else t
    case CancelRide(p) => if Cabs(s, p) then RideCancelled(t, s.players[p]) else t
    case RiderReady(p, there, driver) => if Cabs(s, p) then RideReady(t, s.players[p], there, driver) else t
    case HeavyUpdate(p, o) => if Cabs(s, p) then RideUpdated(t, s.players[p], o) else t
    case Finalize(r) => if r in t.cabs then CabFinalized(t, r) else t
    case SetJob(p, name) => JobSet(s, p, name).rides
    case _ => t
  }

  function Next(s: State, e: Event): State {
    State(NextDeliveries(s, e), NextRides(s, e),
          if e.SetJob? then JobSet(s, e.player, e.name).players
          else if e.Quit? then s.players - {e.player}
          else s.players,
          if e.SetJob? then JobSet(s, e.player, e.name).nextRef else s.nextRef)
  }

  // ----- What every state keeps

  /** Objects are numbered below the next number, an object has one kind, and no two players share one. */
  predicate ObjectsAreGood(s: State) {
    (forall r <- s.deliveries.drivers :: r < s.nextRef && r !in s.rides.cabs)
    && (forall r <- s.rides.cabs :: r < s.nextRef)
    && (forall p <- s.players :: s.players[p] < s.nextRef)
    && (forall p <- s.players, q <- s.players :: p != q ==> s.players[p] != s.players[q])
  }

  predicate DeliveriesAreFiled(d: Deliveries) {
    d.nextId < ID_LIMIT && forall k <- d.available :: k < ID_LIMIT && d.available[k].id == k
  }

  predicate RidesAreFiled(t: Rides) {
    && t.jobId < ID_LIMIT
    && (forall k <- t.available :: k < ID_LIMIT && t.available[k].id == k)
    && (forall r <- t.cabs :: t.cabs[r].active.Some? ==> t.cabs[r].active.value.id < ID_LIMIT)
    && (forall r <- t.cabs :: t.cabs[r].isRiderReady ==> t.cabs[r].active.Some?)
  }

  /** Jobs are filed under their identifiers, and a ready rider means an active ride. */
  predicate Good(s: State) {
    ObjectsAreGood(s) && DeliveriesAreFiled(s.deliveries) && RidesAreFiled(s.rides)
  }

  lemma ObjectsStayGood(s: State, e: Event)
    requires ObjectsAreGood(s)
    ensures ObjectsAreGood(Next(s, e))
  {
    var t := Next(s, e);
    DriversAfter(s, e);
    CabsAfter(s, e);
    hide NextDeliveries, NextRides;
    assert forall r <- t.deliveries.drivers :: r in s.deliveries.drivers || r == s.nextRef;
  }

  /** A step keeps, drops or makes driver objects, and makes one only under a new number. */
  lemma DriversAfter(s: State, e: Event)
    ensures forall r <- NextDeliveries(s, e).drivers ::
              r in s.deliveries.drivers || (r == s.nextRef < Next(s, e).nextRef && e == SetJob(e.player, DeliveryName))
  {
  }

  lemma CabsAfter(s: State, e: Event)
    ensures forall r <- NextRides(s, e).cabs ::
              r in s.rides.cabs || (r == s.nextRef < Next(s, e).nextRef && e == SetJob(e.player, TaxiName))
  {
  }

  lemma DeliveriesStayFiled(s: State, e: Event)
    requires DeliveriesAreFiled(s.deliveries)
    ensures DeliveriesAreFiled(NextDeliveries(s, e))
  {
  }

  lemma RidesStayFiled(s: State, e: Event)
    requires RidesAreFiled(s.rides)
    ensures RidesAreFiled(NextRides(s, e))
  {
    hide RidesAreFiled, RideCreated, RideAccepted, RideCancelled, RideReady, RideUpdated, CabFinalized, WithCab;
    match e
    case CreateRide(rider, _, pickUp, location) => CreatedIsFiled(s.rides, rider, pickUp, location);
    case AcceptRide(p, id) => if Cabs(s, p) { CabStepsAreFiled(s.rides, s.players[p], id, true, true, NOTHING); }
    case CancelRide(p) => if Cabs(s, p) { CabStepsAreFiled(s.rides, s.players[p], 0, true, true, NOTHING); }
    case RiderReady(p, there, driver) =>
      if Cabs(s, p) { CabStepsAreFiled(s.rides, s.players[p], 0, there, driver, NOTHING); }
    case HeavyUpdate(p, o) => if Cabs(s, p) { CabStepsAreFiled(s.rides, s.players[p], 0, true, true, o); }
    case Finalize(r) => if r in s.rides.cabs { CabStepsAreFiled(s.rides, r, 0, true, true, NOTHING); }
    case SetJob(_, _) => WithCabIsFiled(s.rides, s.nextRef);
    case _ =>
  }

  const NOTHING := Senses(false, false, false, false, false)

  lemma CreatedIsFiled(t: Rides, rider: Player, pickUp: Location, location: Location)
    requires RidesAreFiled(t)
    ensures RidesAreFiled(RideCreated(t, rider, pickUp, location))
  {
  }

  lemma WithCabIsFiled(t: Rides, r: Ref)
    requires RidesAreFiled(t)
    ensures RidesAreFiled(WithCab(t, r))
  {
  }

  lemma CabStepsAreFiled(t: Rides, r: Ref, id: nat, there: bool, driver: bool, o: Senses)
    requires RidesAreFiled(t) && r in t.cabs
    ensures RidesAreFiled(RideAccepted(t, r, id)) && RidesAreFiled(RideCancelled(t, r))
    ensures RidesAreFiled(RideReady(t, r, there, driver)) && RidesAreFiled(RideUpdated(t, r, o))
    ensures RidesAreFiled(CabFinalized(t, r))
  {
    CancelledIsFiled(t, r);
    FinishedIsFiled(t, r);
    DroppedIsFiled(RideCancelled(t, r), r);
    hide RideCancelled, RideFinished;
  }

  lemma CancelledIsFiled(t: Rides, r: Ref)
    requires RidesAreFiled(t) && r in t.cabs
    ensures RidesAreFiled(RideCancelled(t, r))
  {
  }

  lemma FinishedIsFiled(t: Rides, r: Ref)
    requires RidesAreFiled(t) && r in t.cabs
    ensures t.cabs[r].active.Some? ==> RidesAreFiled(RideFinished(t, r))
  {
  }

  lemma DroppedIsFiled(t: Rides, r: Ref)
    requires RidesAreFiled(t)
    ensures RidesAreFiled(t.(cabs := t.cabs - {r}))
  {
  }

  /** Every event keeps the invariant, whatever the counters of identifiers do. */
  lemma NextIsGood(s: State, e: Event)
    requires Good(s)
    ensures Good(Next(s, e))
  {
    ObjectsStayGood(s, e);
    DeliveriesStayFiled(s, e);
    RidesStayFiled(s, e);
    hide ObjectsAreGood, DeliveriesAreFiled, RidesAreFiled, NextDeliveries, NextRides;
  }

  // ----- Weighing jobs, wherever they are

  /** The weights of a map's values together. */
  ghost function Sum<T(!new)>(m: map<nat, T>, weight: T -> nat): nat
    decreases |m|
  {
    if m == map[] then 0
    else
      var k :| k in m;
      assert |m - {k}| < |m|;
      weight(m[k]) + Sum(m - {k}, weight)
  }

  /** Any key may be taken out of the sum. */
  lemma {:induction false} SumWithout<T(!new)>(m: map<nat, T>, weight: T -> nat, k: nat)
    requires k in m
    ensures Sum(m, weight) == weight(m[k]) + Sum(m - {k}, weight)
    decreases |m|
  {
    var j :| j in m && Sum(m, weight) == weight(m[j]) + Sum(m - {j}, weight);
    if j != k {
      assert |m - {j}| < |m| && |m - {k}| < |m|;
      SumWithout(m - {j}, weight, k);
      SumWithout(m - {k}, weight, j);
      assert m - {j} - {k} == m - {k} - {j};
    }
  }

  function At<T>(m: map<nat, T>, weight: T -> nat, k: nat): nat {
    if k in m then weight(m[k]) else 0
  }

  lemma SumDrop<T(!new)>(m: map<nat, T>, weight: T -> nat, k: nat)
    ensures Sum(m - {k}, weight) + At(m, weight, k) == Sum(m, weight)
  {
    if k in m {
      SumWithout(m, weight, k);
    } else {
      assert m - {k} == m;
    }
  }

  lemma SumPut<T(!new)>(m: map<nat, T>, weight: T -> nat, k: nat, v: T)
    ensures Sum(m[k := v], weight) + At(m, weight, k) == Sum(m, weight) + weight(v)
  {
    SumDrop(m, weight, k);
    SumDrop(m[k := v], weight, k);
    assert m[k := v] - {k} == m - {k};
  }

  lemma {:induction false} SumFinds<T(!new)>(m: map<nat, T>, weight: T -> nat) returns (k: nat)
    requires Sum(m, weight) > 0
    ensures k in m && weight(m[k]) > 0
    decreases |m|
  {
    k :| k in m && Sum(m, weight) == weight(m[k]) + Sum(m - {k}, weight);
    if weight(m[k]) == 0 {
      assert |m - {k}| < |m|;
      k := SumFinds(m - {k}, weight);
    }
  }

  /** Two different keys weigh no more than the whole. */
  lemma SumOfTwo<T(!new)>(m: map<nat, T>, weight: T -> nat, j: nat, k: nat)
    requires j in m && k in m
    ensures weight(m[j]) <= Sum(m, weight)
    ensures j != k ==> weight(m[j]) + weight(m[k]) <= Sum(m, weight)
  {
    SumWithout(m, weight, j);
    if j != k {
      SumWithout(m - {j}, weight, k);
    }
  }

  function SumOf(xs: seq<nat>, weight: nat -> nat): nat {
    if xs == [] then 0 else SumOf(xs[..|xs| - 1], weight) + weight(xs[|xs| - 1])
  }

  lemma SumOfMore(xs: seq<nat>, weight: nat -> nat, x: nat)
    ensures SumOf(xs + [x], weight) == SumOf(xs, weight) + weight(x)
  {
    assert (xs + [x])[..|xs|] == xs;
  }

  // ----- Deliveries are accounted for

  function FeeWeight(w: nat -> nat): Delivery -> nat {
    (job: Delivery) => w(job.fees)
  }

  function HeldFees(w: nat -> nat, held: Option<Delivery>): nat {
    match held
    case None => 0
    case Some(job) => w(job.fees)
  }

  function HeldWeight(w: nat -> nat): Option<Delivery> -> nat {
    (held: Option<Delivery>) => HeldFees(w, held)
  }

  /** The weight of all fees: on the board, held by any driver, live or orphaned, and paid. */
  ghost function AllFees(d: Deliveries, w: nat -> nat): nat {
    Sum(d.available, FeeWeight(w)) + Sum(d.drivers, HeldWeight(w)) + SumOf(d.paid, w)
  }

  lemma AcceptedKeepsFees(d: Deliveries, r: Ref, id: nat, w: nat -> nat)
    requires r in d.drivers
    ensures AllFees(DeliveryAccepted(d, r, id), w) == AllFees(d, w)
  {
    if d.drivers[r].None? && id in d.available {
      SumDrop(d.available, FeeWeight(w), id);
      SumPut(d.drivers, HeldWeight(w), r, Some(d.available[id]));
    }
  }

  lemma CancelledKeepsFees(d: Deliveries, r: Ref, w: nat -> nat)
    requires r in d.drivers
    ensures AllFees(DeliveryCancelled(d, r), w) == AllFees(d, w)
  {
    if d.drivers[r].Some? && d.nextId !in d.available {
      SumPut(d.available, FeeWeight(w), d.nextId, d.drivers[r].value.(id := d.nextId));
      SumPut(d.drivers, HeldWeight(w), r, None);
    }
  }

  lemma UpdatedKeepsFees(d: Deliveries, r: Ref, o: Senses, w: nat -> nat)
    requires r in d.drivers
    ensures AllFees(DeliveryUpdated(d, r, o), w) == AllFees(d, w)
  {
    if d.drivers[r].Some? && o.driverThere && o.arrived {
      SumPut(d.drivers, HeldWeight(w), r, None);
      SumOfMore(d.paid, w, d.drivers[r].value.fees);
    }
  }

  /** A finalizer that cannot put its delivery back takes it along. */
  lemma FinalizedAccountsFees(d: Deliveries, r: Ref, w: nat -> nat)
    requires r in d.drivers
    ensures AllFees(DriverFinalized(d, r), w) + (if DeliveryStuck(d, r) then w(d.drivers[r].value.fees) else 0)
            == AllFees(d, w)
  {
    CancelledKeepsFees(d, r, w);
    SumDrop(DeliveryCancelled(d, r).drivers, HeldWeight(w), r);
  }

  lemma WithDriverKeepsFees(d: Deliveries, r: Ref, w: nat -> nat)
    requires r !in d.drivers
    ensures AllFees(WithDriver(d, r), w) == AllFees(d, w)
  {
    SumPut(d.drivers, HeldWeight(w), r, None);
  }

  /** The fee an event loses: that of an orphan finalized while its delivery cannot be put back. */
  function LostFees(s: State, e: Event, w: nat -> nat): nat {
    if e.Finalize? && DeliveryStuck(s.deliveries, e.ref) then w(s.deliveries.drivers[e.ref].value.fees) else 0
  }

  /** No event makes a delivery, and only a stuck finalizer loses one, whatever weights fees are given. */
  lemma NextAccountsFees(s: State, e: Event, w: nat -> nat)
    requires ObjectsAreGood(s)
    ensures AllFees(Next(s, e).deliveries, w) + LostFees(s, e, w) == AllFees(s.deliveries, w)
  {
    hide AllFees, DeliveryAccepted, DeliveryCancelled, DeliveryUpdated, DriverFinalized, WithDriver;
    var d := s.deliveries;
    match e
    case AcceptDelivery(p, id) => if Drives(s, p) { AcceptedKeepsFees(d, s.players[p], id, w); }
    case CancelDelivery(p) => if Drives(s, p) { CancelledKeepsFees(d, s.players[p], w); }
    case HeavyUpdate(p, o) => if Drives(s, p) { UpdatedKeepsFees(d, s.players[p], o, w); }
    case Finalize(r) => if r in d.drivers { FinalizedAccountsFees(d, r, w); }
    case SetJob(p, name) => WithDriverKeepsFees(d, s.nextRef, w);
    case _ =>
  }

  // ----- Rides are accounted for

  function RideWeight(w: nat -> nat): Ride -> nat {
    (job: Ride) => w(job.id)
  }

  function CarriedId(w: nat -> nat, cab: Cab): nat {
    match cab.active
    case None => 0
    case Some(job) => w(job.id)
  }

  function CabWeight(w: nat -> nat): Cab -> nat {
    (cab: Cab) => CarriedId(w, cab)
  }

  /** The weight of all ride identifiers: at the stand, carried by any taxi, live or orphaned, and finished. */
  ghost function AllRides(t: Rides, w: nat -> nat): nat {
    Sum(t.available, RideWeight(w)) + Sum(t.cabs, CabWeight(w)) + SumOf(t.finished, w)
  }

  lemma CreatedAddsRide(t: Rides, rider: Player, pickUp: Location, location: Location, w: nat -> nat)
    ensures AllRides(RideCreated(t, rider, pickUp, location), w)
         == AllRides(t, w) + (if NextIdentifier(t.jobId) in t.available then 0 else w(NextIdentifier(t.jobId)))
  {
    var id := NextIdentifier(t.jobId);
    SumPut(t.available, RideWeight(w), id, Ride(id, rider, pickUp, location, 100));
  }

  lemma AcceptedKeepsRides(t: Rides, r: Ref, id: nat, w: nat -> nat)
    requires r in t.cabs
    ensures AllRides(RideAccepted(t, r, id), w) == AllRides(t, w)
  {
    if t.cabs[r].active.None? && id in t.available {
      SumDrop(t.available, RideWeight(w), id);
      SumPut(t.cabs, CabWeight(w), r, t.cabs[r].(active := Some(t.available[id])));
    }
  }

  lemma CancelledKeepsRides(t: Rides, r: Ref, w: nat -> nat)
    requires r in t.cabs
    ensures AllRides(RideCancelled(t, r), w) == AllRides(t, w)
  {
    SumPut(t.cabs, CabWeight(w), r, Cab(t.cabs[r].active, false));
    SumPut(t.cabs, CabWeight(w), r, Cab(None, false));
    if t.cabs[r].active.Some? {
      var job := t.cabs[r].active.value;
      SumPut(t.available, RideWeight(w), job.id, job);
    }
  }

  lemma FinishedKeepsRides(t: Rides, r: Ref, w: nat -> nat)
    requires r in t.cabs && t.cabs[r].active.Some?
    ensures AllRides(RideFinished(t, r), w) == AllRides(t, w)
  {
    SumPut(t.cabs, CabWeight(w), r, Cab(None, false));
    SumOfMore(t.finished, w, t.cabs[r].active.value.id);
  }

  lemma ReadyKeepsRides(t: Rides, r: Ref, riderThere: bool, driverThere: bool, w: nat -> nat)
    requires r in t.cabs
    ensures AllRides(RideReady(t, r, riderThere, driverThere), w) == AllRides(t, w)
  {
    CancelledKeepsRides(t, r, w);
    SumPut(t.cabs, CabWeight(w), r, t.cabs[r].(isRiderReady := true));
  }

  lemma UpdatedKeepsRides(t: Rides, r: Ref, o: Senses, w: nat -> nat)
    requires r in t.cabs
    ensures AllRides(RideUpdated(t, r, o), w) == AllRides(t, w)
  {
    hide AllRides, RideCancelled, RideReady, RideFinished;
    CancelledKeepsRides(t, r, w);
    ReadyKeepsRides(t, r, true, true, w);
    if t.cabs[r].active.Some? {
      FinishedKeepsRides(t, r, w);
    }
  }

  lemma FinalizedAccountsRides(t: Rides, r: Ref, w: nat -> nat)
    requires r in t.cabs
    ensures AllRides(CabFinalized(t, r), w) + (if RideStuck(t, r) then w(t.cabs[r].active.value.id) else 0)
            == AllRides(t, w)
  {
    CancelledKeepsRides(t, r, w);
    SumDrop(RideCancelled(t, r).cabs, CabWeight(w), r);
  }

  lemma WithCabKeepsRides(t: Rides, r: Ref, w: nat -> nat)
    requires r !in t.cabs
    ensures AllRides(WithCab(t, r), w) == AllRides(t, w)
  {
    SumPut(t.cabs, CabWeight(w), r, Cab(None, false));
  }

  function LostRides(s: State, e: Event, w: nat -> nat): nat {
    if e.Finalize? && RideStuck(s.rides, e.ref) then w(s.rides.cabs[e.ref].active.value.id) else 0
  }

  function MadeRides(s: State, e: Event, w: nat -> nat): nat {
    if e.CreateRide? && e.riderThere && NextIdentifier(s.rides.jobId) !in s.rides.available then
      w(NextIdentifier(s.rides.jobId))
    else
      0
  }

  /** Only a request makes a ride, and only a stuck finalizer loses one. */
  lemma NextAccountsRides(s: State, e: Event, w: nat -> nat)
    requires ObjectsAreGood(s)
    ensures AllRides(Next(s, e).rides, w) + LostRides(s, e, w) == AllRides(s.rides, w) + MadeRides(s, e, w)
  {
    hide AllRides, RideCreated, RideAccepted, RideCancelled, RideReady, RideUpdated, CabFinalized, WithCab;
    var t := s.rides;
    match e
    case CreateRide(rider, _, pickUp, location) => CreatedAddsRide(t, rider, pickUp, location, w);
    case AcceptRide(p, id) => if Cabs(s, p) { AcceptedKeepsRides(t, s.players[p], id, w); }
    case CancelRide(p) => if Cabs(s, p) { CancelledKeepsRides(t, s.players[p], w); }
    case RiderReady(p, there, driver) => if Cabs(s, p) { ReadyKeepsRides(t, s.players[p], there, driver, w); }
    case HeavyUpdate(p, o) => if Cabs(s, p) { UpdatedKeepsRides(t, s.players[p], o, w); }
    case Finalize(r) => if r in t.cabs { FinalizedAccountsRides(t, r, w); }
    case SetJob(p, name) => WithCabKeepsRides(t, s.nextRef, w);
    case _ =>
  }

  // ----- When a dictionary refuses a key

  /** The event adds a job under an identifier that its board has already. */
  predicate Collides(s: State, e: Event) {
    DeliveriesCollide(s, e) || RidesCollide(s, e)
  }

  predicate DeliveriesCollide(s: State, e: Event) {
    match e
    case CancelDelivery(p) => p in s.players && DeliveryStuck(s.deliveries, s.players[p])
    case Finalize(r) => DeliveryStuck(s.deliveries, r)
    case _ => false
  }

  predicate RidesCollide(s: State, e: Event) {
    match e
    case CreateRide(_, there, _, _) => there && NextIdentifier(s.rides.jobId) in s.rides.available
    case CancelRide(p) => p in s.players && RideStuck(s.rides, s.players[p])
    case RiderReady(p, there, _) => !there && p in s.players && RideStuck(s.rides, s.players[p])
    case HeavyUpdate(p, o) => Cabs(s, p) && UpdateStuck(s.rides, s.players[p], o)
    case Finalize(r) => RideStuck(s.rides, r)
    case _ => false
  }

  /** The update of a taxi that waits for its rider would cancel the ride, and cannot. */
  predicate UpdateStuck(t: Rides, r: Ref, o: Senses) {
    RideStuck(t, r) && !t.cabs[r].isRiderReady && !(o.driverThere && o.riderThere)
  }

  /** The event takes the counter of delivery identifiers past its largest value. */
  predicate DeliveriesWrap(s: State, e: Event) {
    s.deliveries.nextId + 1 == ID_LIMIT
    && match e
       case CancelDelivery(p) => Drives(s, p) && s.deliveries.drivers[s.players[p]].Some?
       case Finalize(r) => r in s.deliveries.drivers && s.deliveries.drivers[r].Some?
       case _ => false
  }

  /** The event takes the counter of ride identifiers past its largest value. */
  predicate RidesWrap(s: State, e: Event) {
    e.CreateRide? && e.riderThere && s.rides.jobId + 1 == ID_LIMIT
  }

  predicate Holds(d: Deliveries, r: Ref, id: nat) {
    r in d.drivers && d.drivers[r].Some? && d.drivers[r].value.id == id
  }

  predicate Carries(t: Rides, r: Ref, id: nat) {
    r in t.cabs && t.cabs[r].active.Some? && t.cabs[r].active.value.id == id
  }

  /** Filed, and every identifier has been issued; none on the board is held, and none is held twice. */
  ghost predicate DeliveriesAreFresh(d: Deliveries) {
    DeliveriesAreFiled(d)
    && (forall k <- d.available :: k < d.nextId)
    && (forall r: Ref, id: nat :: Holds(d, r, id) ==> id < d.nextId && id !in d.available)
    && (forall r: Ref, q: Ref, id: nat :: Holds(d, r, id) && Holds(d, q, id) ==> r == q)
  }

  /** The same for rides; a finished one is neither at the stand nor carried. */
  ghost predicate RidesAreFresh(t: Rides) {
    RidesAreFiled(t)
    && (forall k <- t.available :: k <= t.jobId)
    && (forall r: Ref, id: nat :: Carries(t, r, id) ==> id <= t.jobId && id !in t.available && id !in t.finished)
    && (forall r: Ref, q: Ref, id: nat :: Carries(t, r, id) && Carries(t, q, id) ==> r == q)
    && (forall k <- t.finished :: k <= t.jobId && k !in t.available)
  }

  /** While delivery identifiers have not run out, no event adds a delivery under a taken one. */
  lemma FreshDeliveriesNeverCollide(s: State, e: Event)
    requires DeliveriesAreFresh(s.deliveries)
    ensures !DeliveriesCollide(s, e)
  {
  }

  /** While ride identifiers have not run out, no event adds a ride under a taken one. */
  lemma FreshRidesNeverCollide(s: State, e: Event)
    requires RidesAreFresh(s.rides) && !RidesWrap(s, e)
    ensures !RidesCollide(s, e)
  {
    var t := s.rides;
    forall r <- t.cabs ensures !RideStuck(t, r) {
      assert t.cabs[r].active.Some? ==> Carries(t, r, t.cabs[r].active.value.id);
    }
    assert e.CreateRide? && e.riderThere ==> NextIdentifier(t.jobId) == t.jobId + 1;
  }

  lemma AcceptedIsFresh(d: Deliveries, r: Ref, id: nat)
    requires DeliveriesAreFresh(d) && r in d.drivers
    ensures DeliveriesAreFresh(DeliveryAccepted(d, r, id))
  {
    var c := DeliveryAccepted(d, r, id);
    if c != d {
      assert forall q, i :: Holds(c, q, i) <==> if q == r then i == id else Holds(d, q, i);
    }
  }

  lemma CancelledIsFresh(d: Deliveries, r: Ref)
    requires DeliveriesAreFresh(d) && r in d.drivers && (d.drivers[r].Some? ==> d.nextId + 1 < ID_LIMIT)
    ensures DeliveriesAreFresh(DeliveryCancelled(d, r))
  {
    var c := DeliveryCancelled(d, r);
    if c != d {
      assert forall q, i :: Holds(c, q, i) <==> q != r && Holds(d, q, i);
    }
  }

  lemma UpdatedIsFresh(d: Deliveries, r: Ref, o: Senses)
    requires DeliveriesAreFresh(d) && r in d.drivers
    ensures DeliveriesAreFresh(DeliveryUpdated(d, r, o))
  {
    var c := DeliveryUpdated(d, r, o);
    if c != d {
      assert forall q, i :: Holds(c, q, i) <==> q != r && Holds(d, q, i);
    }
  }

  lemma DriversChangeIsFresh(d: Deliveries, r: Ref)
    requires DeliveriesAreFresh(d)
    ensures DeliveriesAreFresh(WithDriver(d, r))
    ensures DeliveriesAreFresh(d.(drivers := d.drivers - {r}))
  {
    var c, e := WithDriver(d, r), d.(drivers := d.drivers - {r});
    assert forall q, i :: Holds(c, q, i) ==> Holds(d, q, i);
    assert forall q, i :: Holds(e, q, i) ==> Holds(d, q, i);
  }

  /** Every event keeps delivery identifiers fresh that does not make them run out. */
  lemma DeliveriesStayFresh(s: State, e: Event)
    requires DeliveriesAreFresh(s.deliveries) && !DeliveriesWrap(s, e)
    ensures DeliveriesAreFresh(Next(s, e).deliveries)
  {
    NextIdBelow(s.deliveries);
    hide DeliveriesAreFresh;
    var d := s.deliveries;
    match e
    case AcceptDelivery(p, id) => if Drives(s, p) { AcceptedIsFresh(d, s.players[p], id); }
    case CancelDelivery(p) => if Drives(s, p) { CancelledIsFresh(d, s.players[p]); }
    case HeavyUpdate(p, o) => if Drives(s, p) { UpdatedIsFresh(d, s.players[p], o); }
    case Finalize(r) =>
      if r in d.drivers {
        CancelledIsFresh(d, r);
        DriversChangeIsFresh(DeliveryCancelled(d, r), r);
      }
    case SetJob(p, name) => DriversChangeIsFresh(d, s.nextRef);
    case _ =>
  }

  lemma NextIdBelow(d: Deliveries)
    requires DeliveriesAreFresh(d)
    ensures d.nextId < ID_LIMIT
  {
  }

  lemma CreatedIsFresh(t: Rides, rider: Player, pickUp: Location, location: Location)
    requires RidesAreFresh(t) && t.jobId + 1 < ID_LIMIT
    ensures RidesAreFresh(RideCreated(t, rider, pickUp, location))
  {
    var c := RideCreated(t, rider, pickUp, location);
    assert forall q, i :: Carries(c, q, i) <==> Carries(t, q, i);
  }

  lemma RideAcceptedIsFresh(t: Rides, r: Ref, id: nat)
    requires RidesAreFresh(t) && r in t.cabs
    ensures RidesAreFresh(RideAccepted(t, r, id))
  {
    var c := RideAccepted(t, r, id);
    if c != t {
      assert forall q, i :: Carries(c, q, i) <==> if q == r then i == id else Carries(t, q, i);
    }
  }

  lemma RideCancelledIsFresh(t: Rides, r: Ref)
    requires RidesAreFresh(t) && r in t.cabs
    ensures RidesAreFresh(RideCancelled(t, r))
  {
    var c := RideCancelled(t, r);
    assert t.cabs[r].active.Some? ==> Carries(t, r, t.cabs[r].active.value.id);
    assert forall q, i :: Carries(c, q, i) <==> q != r && Carries(t, q, i);
  }

  lemma RideFinishedIsFresh(t: Rides, r: Ref)
    requires RidesAreFresh(t) && r in t.cabs && t.cabs[r].active.Some?
    ensures RidesAreFresh(RideFinished(t, r))
  {
    var c := RideFinished(t, r);
    assert Carries(t, r, t.cabs[r].active.value.id);
    assert forall q, i :: Carries(c, q, i) <==> q != r && Carries(t, q, i);
  }

  lemma RideReadyIsFresh(t: Rides, r: Ref, riderThere: bool, driverThere: bool)
    requires RidesAreFresh(t) && r in t.cabs
    ensures RidesAreFresh(RideReady(t, r, riderThere, driverThere))
  {
    var c := RideReady(t, r, riderThere, driverThere);
    if c != t {
      if riderThere {
        assert forall q, i :: Carries(c, q, i) <==> Carries(t, q, i);
      } else {
        RideCancelledIsFresh(t, r);
      }
    }
  }

  lemma RideUpdatedIsFresh(t: Rides, r: Ref, o: Senses)
    requires RidesAreFresh(t) && r in t.cabs
    ensures RidesAreFresh(RideUpdated(t, r, o))
  {
    hide RidesAreFresh;
    RideCancelledIsFresh(t, r);
    RideReadyIsFresh(t, r, true, true);
    if t.cabs[r].active.Some? {
      RideFinishedIsFresh(t, r);
    }
  }

  lemma CabsChangeIsFresh(t: Rides, r: Ref)
    requires RidesAreFresh(t)
    ensures RidesAreFresh(WithCab(t, r))
    ensures RidesAreFresh(t.(cabs := t.cabs - {r}))
  {
    var c, e := WithCab(t, r), t.(cabs := t.cabs - {r});
    assert forall q, i :: Carries(c, q, i) ==> Carries(t, q, i);
    assert forall q, i :: Carries(e, q, i) ==> Carries(t, q, i);
  }

  lemma JobIdBelow(t: Rides)
    requires RidesAreFresh(t)
    ensures t.jobId < ID_LIMIT
  {
  }

  /** Every event keeps ride identifiers fresh that does not make them run out. */
  lemma RidesStayFresh(s: State, e: Event)
    requires RidesAreFresh(s.rides) && !RidesWrap(s, e)
    ensures RidesAreFresh(Next(s, e).rides)
  {
    JobIdBelow(s.rides);
    hide RidesAreFresh;
    var t := s.rides;
    match e
    case CreateRide(rider, there, pickUp, location) => if there { CreatedIsFresh(t, rider, pickUp, location); }
    case AcceptRide(p, id) => if Cabs(s, p) { RideAcceptedIsFresh(t, s.players[p], id); }
    case CancelRide(p) => if Cabs(s, p) { RideCancelledIsFresh(t, s.players[p]); }
    case RiderReady(p, there, driver) => if Cabs(s, p) { RideReadyIsFresh(t, s.players[p], there, driver); }
    case HeavyUpdate(p, o) => if Cabs(s, p) { RideUpdatedIsFresh(t, s.players[p], o); }
    case Finalize(r) =>
      if r in t.cabs {
        RideCancelledIsFresh(t, r);
        CabsChangeIsFresh(RideCancelled(t, r), r);
      }
    case SetJob(p, name) => CabsChangeIsFresh(t, s.nextRef);
    case _ =>
  }

  // ----- Runs

  const DESTINATION := Location(-807.0, 833.5, 26.7)

  /** The board after its first deliveries have been put up. */
  function Stocked(n: nat): Deliveries {
    if n == 0 then Deliveries(map[], 1, map[], [])
    else
      var d := Stocked(n - 1);
      d.(available := d.available[d.nextId := Delivery(d.nextId, DESTINATION, 1, 100 * (n - 1))],
          nextId := NextIdentifier(d.nextId))
  }

  function Start(): State {
    State(Stocked(5), Rides(map[], 0, map[], []), map[], 0)
  }

  function Run(s: State, events: seq<Event>): State
    decreases |events|
  {
    if events == [] then s else Run(Next(s, events[0]), events[1..])
  }

  /** Delivery identifiers do not run out in the course of the run. */
  predicate DeliveriesNeverWrap(s: State, events: seq<Event>)
    decreases |events|
  {
    events == [] || (!DeliveriesWrap(s, events[0]) && DeliveriesNeverWrap(Next(s, events[0]), events[1..]))
  }

  /** Ride identifiers do not run out in the course of the run. */
  predicate RidesNeverWrap(s: State, events: seq<Event>)
    decreases |events|
  {
    events == [] || (!RidesWrap(s, events[0]) && RidesNeverWrap(Next(s, events[0]), events[1..]))
  }

  predicate DeliveriesNeverCollide(s: State, events: seq<Event>)
    decreases |events|
  {
    events == [] || (!DeliveriesCollide(s, events[0]) && DeliveriesNeverCollide(Next(s, events[0]), events[1..]))
  }

  predicate RidesNeverCollide(s: State, events: seq<Event>)
    decreases |events|
  {
    events == [] || (!RidesCollide(s, events[0]) && RidesNeverCollide(Next(s, events[0]), events[1..]))
  }

  /** What the finalizers of a run lose. */
  function AllLostFees(s: State, events: seq<Event>, w: nat -> nat): nat
    decreases |events|
  {
    if events == [] then 0 else LostFees(s, events[0], w) + AllLostFees(Next(s, events[0]), events[1..], w)
  }

  function AllLostRides(s: State, events: seq<Event>, w: nat -> nat): nat
    decreases |events|
  {
    if events == [] then 0 else LostRides(s, events[0], w) + AllLostRides(Next(s, events[0]), events[1..], w)
  }

  function AllMadeRides(s: State, events: seq<Event>, w: nat -> nat): nat
    decreases |events|
  {
    if events == [] then 0 else MadeRides(s, events[0], w) + AllMadeRides(Next(s, events[0]), events[1..], w)
  }

  lemma {:induction false} RunAccounts(s: State, events: seq<Event>, w: nat -> nat)
    requires Good(s)
    ensures Good(Run(s, events))
    ensures AllFees(Run(s, events).deliveries, w) + AllLostFees(s, events, w) == AllFees(s.deliveries, w)
    ensures AllRides(Run(s, events).rides, w) + AllLostRides(s, events, w)
            == AllRides(s.rides, w) + AllMadeRides(s, events, w)
    decreases |events|
  {
    NextIsGoodOrDone(s, events);
    hide Good, AllFees, AllRides, Next, LostFees, LostRides, MadeRides;
    if events != [] {
      var t := Next(s, events[0]);
      StepAccounts(s, events[0], w);
      RunAccounts(t, events[1..], w);
    }
  }

  lemma NextIsGoodOrDone(s: State, events: seq<Event>)
    requires Good(s)
    ensures events != [] ==> Good(Next(s, events[0]))
  {
    if events != [] {
      NextIsGood(s, events[0]);
    }
  }

  lemma StepAccounts(s: State, e: Event, w: nat -> nat)
    requires Good(s)
    ensures AllFees(Next(s, e).deliveries, w) + LostFees(s, e, w) == AllFees(s.deliveries, w)
    ensures AllRides(Next(s, e).rides, w) + LostRides(s, e, w) == AllRides(s.rides, w) + MadeRides(s, e, w)
  {
    hide AllFees, AllRides, Next, LostFees, LostRides, MadeRides;
    NextAccountsFees(s, e, w);
    NextAccountsRides(s, e, w);
  }

  lemma StockedIs(n: nat)
    requires n <= 5
    ensures Stocked(n).nextId == n + 1 && Stocked(n).drivers == map[] && Stocked(n).paid == []
    ensures forall k <- Stocked(n).available :: k < n + 1 && Stocked(n).available[k].id == k
  {
  }

  lemma StartIsFresh()
    ensures Good(Start()) && DeliveriesAreFresh(Start().deliveries) && RidesAreFresh(Start().rides)
  {
    StockedIs(5);
    hide Stocked;
  }

  function FirstFees(w: nat -> nat, n: nat): nat {
    if n == 0 then 0 else FirstFees(w, n - 1) + w(100 * (n - 1))
  }

  lemma {:induction false} StockedFees(n: nat, w: nat -> nat)
    requires n <= 5
    ensures AllFees(Stocked(n), w) == FirstFees(w, n)
  {
    StockedIs(n);
    if n > 0 {
      StockedFees(n - 1, w);
      StockedIs(n - 1);
      SumPut(Stocked(n - 1).available, FeeWeight(w), n, Delivery(n, DESTINATION, 1, 100 * (n - 1)));
    }
  }

  /** The five fees there are. */
  lemma FirstFiveFees(w: nat -> nat)
    ensures AllFees(Start().deliveries, w) == w(0) + w(100) + w(200) + w(300) + w(400)
    ensures AllRides(Start().rides, w) == 0
  {
    hide AllFees;
    StockedFees(5, w);
    assert FirstFees(w, 5) == w(0) + w(100) + w(200) + w(300) + w(400);
  }

  /** Over every run, by any number of players, whatever the counters do: deliveries and rides on a board, with
    * live or orphaned drivers, done, or lost by a stuck finalizer are all there ever were. */
  lemma JobsAreAccounted(events: seq<Event>, w: nat -> nat)
    ensures var s := Run(Start(), events);
            && Good(s)
            && AllFees(s.deliveries, w) + AllLostFees(Start(), events, w) == w(0) + w(100) + w(200) + w(300) + w(400)
            && AllRides(s.rides, w) + AllLostRides(Start(), events, w) == AllMadeRides(Start(), events, w)
  {
    StartIsFresh();
    FirstFiveFees(w);
    RunAccounts(Start(), events, w);
  }

  // ----- Before identifiers run out

  function Issued(w: nat -> nat, n: nat): nat {
    if n == 0 then 0 else Issued(w, n - 1) + w(n)
  }

  /** No delivery is refused by the board, and none is lost. */
  lemma {:induction false} FreshRunsLoseNoDelivery(s: State, events: seq<Event>, w: nat -> nat)
    requires DeliveriesAreFresh(s.deliveries) && DeliveriesNeverWrap(s, events)
    ensures DeliveriesAreFresh(Run(s, events).deliveries) && DeliveriesNeverCollide(s, events)
    ensures AllLostFees(s, events, w) == 0
    decreases |events|
  {
    if events != [] {
      DeliveriesStayFresh(s, events[0]);
      FreshDeliveriesNeverCollide(s, events[0]);
      assert LostFees(s, events[0], w) == 0;
      hide DeliveriesAreFresh, DeliveriesWrap, DeliveriesCollide, Next, LostFees;
      FreshRunsLoseNoDelivery(Next(s, events[0]), events[1..], w);
    }
  }

  /** No ride is refused by the stand, none is lost, and every request makes one under the next identifier. */
  lemma {:induction false} FreshRunsLoseNoRide(s: State, events: seq<Event>, w: nat -> nat)
    requires RidesAreFresh(s.rides) && RidesNeverWrap(s, events)
    ensures RidesAreFresh(Run(s, events).rides) && RidesNeverCollide(s, events)
    ensures AllLostRides(s, events, w) == 0
    ensures Issued(w, s.rides.jobId) + AllMadeRides(s, events, w) == Issued(w, Run(s, events).rides.jobId)
    decreases |events|
  {
    if events != [] {
      FreshRidesStep(s, events[0], w);
      hide RidesAreFresh, RidesWrap, RidesCollide, Next, LostRides, MadeRides, Issued;
      FreshRunsLoseNoRide(Next(s, events[0]), events[1..], w);
    }
  }

  lemma FreshRidesStep(s: State, e: Event, w: nat -> nat)
    requires RidesAreFresh(s.rides) && !RidesWrap(s, e)
    ensures RidesAreFresh(Next(s, e).rides) && !RidesCollide(s, e)
    ensures LostRides(s, e, w) == 0
    ensures Issued(w, s.rides.jobId) + MadeRides(s, e, w) == Issued(w, Next(s, e).rides.jobId)
  {
    RidesStayFresh(s, e);
    FreshRidesNeverCollide(s, e);
    JobIdBelow(s.rides);
    JobIdAfter(s, e);
    hide RidesAreFresh, RideStuck, Next;
  }

  lemma JobIdAfter(s: State, e: Event)
    ensures Next(s, e).rides.jobId == if e.CreateRide? && e.riderThere then NextIdentifier(s.rides.jobId)
            else s.rides.jobId
  {
  }

  /** Until delivery identifiers run out, deliveries on the board, held and paid are all there are, whatever rides
    * do. */
  lemma DeliveriesAreConserved(events: seq<Event>, w: nat -> nat)
    requires DeliveriesNeverWrap(Start(), events)
    ensures DeliveriesNeverCollide(Start(), events)
    ensures AllFees(Run(Start(), events).deliveries, w) == w(0) + w(100) + w(200) + w(300) + w(400)
  {
    hide Run, DeliveriesNeverWrap, DeliveriesNeverCollide, AllFees, AllRides, AllLostFees, AllLostRides,
         AllMadeRides, Good;
    StartIsFresh();
    JobsAreAccounted(events, w);
    FreshRunsLoseNoDelivery(Start(), events, w);
  }

  /** Until ride identifiers run out, rides at the stand, carried and finished are all that were issued, whatever
    * deliveries do. */
  lemma RidesAreConserved(events: seq<Event>, w: nat -> nat)
    requires RidesNeverWrap(Start(), events)
    ensures RidesNeverCollide(Start(), events)
    ensures AllLostRides(Start(), events, w) == 0
    ensures var t := Run(Start(), events).rides;
            AllRides(t, w) == AllMadeRides(Start(), events, w) == Issued(w, t.jobId)
  {
    hide Run, RidesNeverWrap, RidesNeverCollide, AllFees, AllRides, AllLostFees, AllLostRides, AllMadeRides, Good;
    StartIsFresh();
    JobsAreAccounted(events, w);
    FreshRunsLoseNoRide(Start(), events, w);
  }

  /** The fees on the board, held, paid and lost always add up to a thousand. */
  lemma FeesAddUp(events: seq<Event>)
    ensures AllFees(Run(Start(), events).deliveries, (x: nat) => x) + AllLostFees(Start(), events, (x: nat) => x)
            == 1000
  {
    hide Run, AllFees, AllLostFees, Good;
    JobsAreAccounted(events, (x: nat) => x);
  }

  // ----- From weights to places

  function Is(k: nat): nat -> nat {
    (x: nat) => if x == k then 1 else 0
  }

  lemma {:induction false} IssuedOnce(k: nat, n: nat)
    ensures Issued(Is(k), n) == if 1 <= k <= n then 1 else 0
  {
    if n > 0 {
      IssuedOnce(k, n - 1);
    }
  }

  lemma {:induction false} SumOfFinds(xs: seq<nat>, k: nat)
    ensures SumOf(xs, Is(k)) > 0 <==> k in xs
  {
    if xs != [] {
      SumOfFinds(xs[..|xs| - 1], k);
      assert xs == xs[..|xs| - 1] + [xs[|xs| - 1]];
    }
  }

  /** Every entry of a list counts. */
  lemma {:induction false} SumOfEntries(xs: seq<nat>, k: nat, i: nat, j: nat)
    requires i < |xs| && j < |xs| && xs[i] == k && xs[j] == k
    ensures SumOf(xs, Is(k)) >= if i == j then 1 else 2
  {
    var n := |xs| - 1;
    if i < n && j < n {
      SumOfEntries(xs[..n], k, i, j);
    } else if i < n {
      SumOfEntries(xs[..n], k, i, i);
    } else if j < n {
      SumOfEntries(xs[..n], k, j, j);
    }
  }

  /** A place a delivery can be in: on the board, with a driver, or paid. */
  datatype DeliveryPlace = OnBoard(id: nat) | HeldBy(r: Ref) | Paid(index: nat)

  predicate DeliveryIn(d: Deliveries, fee: nat, place: DeliveryPlace) {
    match place
    case OnBoard(k) => k in d.available && d.available[k].fees == fee
    case HeldBy(r) => r in d.drivers && d.drivers[r].Some? && d.drivers[r].value.fees == fee
    case Paid(i) => i < |d.paid| && d.paid[i] == fee
  }

  lemma BoardWeighs(d: Deliveries, fee: nat, j: nat, k: nat)
    requires DeliveryIn(d, fee, OnBoard(j)) && DeliveryIn(d, fee, OnBoard(k))
    ensures Sum(d.available, FeeWeight(Is(fee))) >= if j == k then 1 else 2
  {
    SumOfTwo(d.available, FeeWeight(Is(fee)), j, k);
  }

  lemma DriversWeigh(d: Deliveries, fee: nat, q: Ref, r: Ref)
    requires DeliveryIn(d, fee, HeldBy(q)) && DeliveryIn(d, fee, HeldBy(r))
    ensures Sum(d.drivers, HeldWeight(Is(fee))) >= if q == r then 1 else 2
  {
    SumOfTwo(d.drivers, HeldWeight(Is(fee)), q, r);
  }

  lemma OneDeliveryPlace(d: Deliveries, fee: nat, p: DeliveryPlace, q: DeliveryPlace)
    requires AllFees(d, Is(fee)) == 1 && DeliveryIn(d, fee, p) && DeliveryIn(d, fee, q)
    ensures p == q
  {
    hide Sum, SumOf;
    BothWeigh(d, fee, p);
    BothWeigh(d, fee, q);
    match (p, q)
    case (OnBoard(j), OnBoard(k)) => BoardWeighs(d, fee, j, k);
    case (HeldBy(j), HeldBy(k)) => DriversWeigh(d, fee, j, k);
    case (Paid(j), Paid(k)) => SumOfEntries(d.paid, fee, j, k);
    case _ =>
  }

  lemma BothWeigh(d: Deliveries, fee: nat, p: DeliveryPlace)
    requires DeliveryIn(d, fee, p)
    ensures match p
            case OnBoard(_) => Sum(d.available, FeeWeight(Is(fee))) >= 1
            case HeldBy(_) => Sum(d.drivers, HeldWeight(Is(fee))) >= 1
            case Paid(_) => SumOf(d.paid, Is(fee)) >= 1
  {
    hide Sum, SumOf;
    match p
    case OnBoard(k) => BoardWeighs(d, fee, k, k);
    case HeldBy(r) => DriversWeigh(d, fee, r, r);
    case Paid(i) => SumOfEntries(d.paid, fee, i, i);
  }

  lemma SomeDeliveryPlace(d: Deliveries, fee: nat) returns (place: DeliveryPlace)
    requires AllFees(d, Is(fee)) == 1
    ensures DeliveryIn(d, fee, place)
  {
    hide Sum, SumOf;
    if Sum(d.available, FeeWeight(Is(fee))) > 0 {
      var k := SumFinds(d.available, FeeWeight(Is(fee)));
      place := OnBoard(k);
    } else if Sum(d.drivers, HeldWeight(Is(fee))) > 0 {
      var r := SumFinds(d.drivers, HeldWeight(Is(fee)));
      place := HeldBy(r);
    } else {
      SumOfFinds(d.paid, fee);
      var i :| 0 <= i < |d.paid| && d.paid[i] == fee;
      place := Paid(i);
    }
  }

  /** After every run, each of the five deliveries, told apart by its fee, is in a place exactly when no finalizer
    * has lost it, and in no two places: on the board once, or with one driver, or paid once. */
  lemma EveryDeliveryHasOnePlace(events: seq<Event>, fee: nat)
    requires fee in {0, 100, 200, 300, 400}
    ensures var d := Run(Start(), events).deliveries;
            && ((exists p :: DeliveryIn(d, fee, p)) <==> AllLostFees(Start(), events, Is(fee)) == 0)
            && forall p, q :: DeliveryIn(d, fee, p) && DeliveryIn(d, fee, q) ==> p == q
  {
    hide Run, AllLostFees, AllFees, AllRides, DeliveryIn, Good;
    JobsAreAccounted(events, Is(fee));
    var d := Run(Start(), events).deliveries;
    if AllFees(d, Is(fee)) == 1 {
      var p := SomeDeliveryPlace(d, fee);
    }
    forall p | DeliveryIn(d, fee, p) ensures AllFees(d, Is(fee)) == 1 {
      DeliveryWeighs(d, fee, p);
    }
    forall p, q | DeliveryIn(d, fee, p) && DeliveryIn(d, fee, q) ensures p == q {
      OneDeliveryPlace(d, fee, p, q);
    }
  }

  lemma DeliveryWeighs(d: Deliveries, fee: nat, p: DeliveryPlace)
    requires DeliveryIn(d, fee, p)
    ensures AllFees(d, Is(fee)) >= 1
  {
    hide Sum, SumOf;
    BothWeigh(d, fee, p);
  }

  /** A place a ride can be in: at the stand, with a taxi, or among the finished ones. */
  datatype RidePlace = AtStand | CarriedBy(r: Ref) | Finished(index: nat)

  predicate RideIn(t: Rides, k: nat, place: RidePlace) {
    match place
    case AtStand => k in t.available
    case CarriedBy(r) => Carries(t, r, k)
    case Finished(i) => i < |t.finished| && t.finished[i] == k
  }

  lemma RideWeighs(t: Rides, k: nat, p: RidePlace)
    requires RidesAreFiled(t) && RideIn(t, k, p)
    ensures match p
            case AtStand => Sum(t.available, RideWeight(Is(k))) >= 1
            case CarriedBy(_) => Sum(t.cabs, CabWeight(Is(k))) >= 1
            case Finished(_) => SumOf(t.finished, Is(k)) >= 1
    ensures AllRides(t, Is(k)) >= 1
  {
    hide Sum, SumOf;
    match p
    case AtStand => SumOfTwo(t.available, RideWeight(Is(k)), k, k);
    case CarriedBy(r) => SumOfTwo(t.cabs, CabWeight(Is(k)), r, r);
    case Finished(i) => SumOfEntries(t.finished, k, i, i);
  }

  lemma OneRidePlace(t: Rides, k: nat, p: RidePlace, q: RidePlace)
    requires RidesAreFiled(t) && AllRides(t, Is(k)) == 1 && RideIn(t, k, p) && RideIn(t, k, q)
    ensures p == q
  {
    hide Sum, SumOf, RidesAreFiled;
    RideWeighs(t, k, p);
    RideWeighs(t, k, q);
    match (p, q)
    case (CarriedBy(r), CarriedBy(c)) => SumOfTwo(t.cabs, CabWeight(Is(k)), r, c);
    case (Finished(i), Finished(j)) => SumOfEntries(t.finished, k, i, j);
    case _ =>
  }

  lemma SomeRidePlace(t: Rides, k: nat) returns (place: RidePlace)
    requires RidesAreFiled(t) && AllRides(t, Is(k)) == 1
    ensures RideIn(t, k, place)
  {
    hide Sum, SumOf;
    if Sum(t.available, RideWeight(Is(k))) > 0 {
      var _ := SumFinds(t.available, RideWeight(Is(k)));
      place := AtStand;
    } else if Sum(t.cabs, CabWeight(Is(k))) > 0 {
      var r := SumFinds(t.cabs, CabWeight(Is(k)));
      place := CarriedBy(r);
    } else {
      SumOfFinds(t.finished, k);
      var i :| 0 <= i < |t.finished| && t.finished[i] == k;
      place := Finished(i);
    }
  }

  /** After every run that made a ride once under an identifier, that ride is in a place exactly when no finalizer has
    * lost it, and in no two places: at the stand, or with one taxi, or finished once. */
  lemma EveryRideHasOnePlace(events: seq<Event>, k: nat)
    requires AllMadeRides(Start(), events, Is(k)) == 1
    ensures var t := Run(Start(), events).rides;
            && ((exists p :: RideIn(t, k, p)) <==> AllLostRides(Start(), events, Is(k)) == 0)
            && forall p, q :: RideIn(t, k, p) && RideIn(t, k, q) ==> p == q
  {
    hide Run, AllLostFees, AllLostRides, AllMadeRides, AllFees, AllRides, RideIn, ObjectsAreGood, DeliveriesAreFiled,
         RidesAreFiled;
    JobsAreAccounted(events, Is(k));
    var t := Run(Start(), events).rides;
    if AllRides(t, Is(k)) == 1 {
      var p := SomeRidePlace(t, k);
    }
    forall p | RideIn(t, k, p) ensures AllRides(t, Is(k)) == 1 {
      RideWeighs(t, k, p);
    }
    forall p, q | RideIn(t, k, p) && RideIn(t, k, q) ensures p == q {
      OneRidePlace(t, k, p, q);
    }
  }

  /** Until ride identifiers run out, every identifier issued has made one ride, and none is lost. */
  lemma EveryIssuedRideHasOnePlace(events: seq<Event>, k: nat)
    requires RidesNeverWrap(Start(), events) && 1 <= k <= Run(Start(), events).rides.jobId
    ensures var t := Run(Start(), events).rides;
            (exists p :: RideIn(t, k, p)) && forall p, q :: RideIn(t, k, p) && RideIn(t, k, q) ==> p == q
  {
    hide Run, RidesNeverWrap, RidesNeverCollide, AllRides, AllLostRides, AllMadeRides, RideIn;
    RidesAreConserved(events, Is(k));
    IssuedOnce(k, Run(Start(), events).rides.jobId);
    EveryRideHasOnePlace(events, k);
  }

  // ----- No ride is paid before its rider has been picked up

  /** Some state of the run carries the ride with its rider on board. */
  predicate EverReady(s: State, events: seq<Event>, k: nat)
    decreases |events|
  {
    ReadyNow(s.rides, k) || (events != [] && EverReady(Next(s, events[0]), events[1..], k))
  }

  predicate ReadyNow(t: Rides, k: nat) {
    exists r <- t.cabs :: Carries(t, r, k) && t.cabs[r].isRiderReady
  }

  /** Only a ride whose rider is ready finishes, at its destination and without its rider in the taxi. */
  lemma FinishesOnlyWhenReady(s: State, e: Event, k: nat)
    requires k in Next(s, e).rides.finished && k !in s.rides.finished
    ensures ReadyNow(s.rides, k)
    ensures e.HeavyUpdate? && e.senses.arrived && !(e.senses.riderThere && e.senses.together)
  {
    hide NextDeliveries;
  }

  lemma {:induction false} FinishedWasReady(s: State, events: seq<Event>, k: nat)
    requires k in Run(s, events).rides.finished && k !in s.rides.finished
    ensures EverReady(s, events, k)
    decreases |events|
  {
    hide Next, ReadyNow;
    if events != [] {
      if k in Next(s, events[0]).rides.finished {
        FinishesOnlyWhenReady(s, events[0], k);
      } else {
        FinishedWasReady(Next(s, events[0]), events[1..], k);
      }
    }
  }

  // ----- One driver object and its board

  /** What one delivery driver can see and change, as a board with a single driver. */
  function DriverSlice(d: Deliveries, r: Ref): Deliveries
    requires r in d.drivers
  {
    Deliveries(d.available, d.nextId, map[0 := d.drivers[r]], [])
  }

  function WithDriverSlice(d: Deliveries, r: Ref, u: Deliveries): Deliveries
    requires 0 in u.drivers
  {
    Deliveries(u.available, u.nextId, d.drivers[r := u.drivers[0]], d.paid + u.paid)
  }

  lemma DriverActsOnSlice(d: Deliveries, r: Ref, id: nat, o: Senses)
    requires r in d.drivers
    ensures DeliveryAccepted(d, r, id) == WithDriverSlice(d, r, DeliveryAccepted(DriverSlice(d, r), 0, id))
    ensures DeliveryCancelled(d, r) == WithDriverSlice(d, r, DeliveryCancelled(DriverSlice(d, r), 0))
    ensures DeliveryUpdated(d, r, o) == WithDriverSlice(d, r, DeliveryUpdated(DriverSlice(d, r), 0, o))
  {
    assert d.paid + [] == d.paid;
    assert d.drivers[r := d.drivers[r]] == d.drivers;
  }

  function CabSlice(t: Rides, r: Ref): Rides
    requires r in t.cabs
  {
    Rides(t.available, t.jobId, map[0 := t.cabs[r]], [])
  }

  function WithCabSlice(t: Rides, r: Ref, u: Rides): Rides
    requires 0 in u.cabs
  {
    Rides(u.available, u.jobId, t.cabs[r := u.cabs[0]], t.finished + u.finished)
  }

  lemma CabActsOnSlice(t: Rides, r: Ref, id: nat, there: bool, driver: bool, o: Senses)
    requires r in t.cabs
    ensures RideAccepted(t, r, id) == WithCabSlice(t, r, RideAccepted(CabSlice(t, r), 0, id))
    ensures RideCancelled(t, r) == WithCabSlice(t, r, RideCancelled(CabSlice(t, r), 0))
    ensures RideReady(t, r, there, driver) == WithCabSlice(t, r, RideReady(CabSlice(t, r), 0, there, driver))
    ensures RideUpdated(t, r, o) == WithCabSlice(t, r, RideUpdated(CabSlice(t, r), 0, o))
  {
    assert t.finished + [] == t.finished;
    assert t.cabs[r := t.cabs[r]] == t.cabs;
  }
}
