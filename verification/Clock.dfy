/** The client's estimate of the server's clock: a correction is spread over one second. */
module Clock {

  import opened Arithmetic

  /** Nanoseconds in a millisecond and in a second. */
  const MS := 1_000_000
  const SECOND := 1_000_000_000

  // ----- The clock as a value

  /** Idle until the first server tick; then `shown` is the tick last reported, in milliseconds,
    * and `base`, `correction` and `since` (nanoseconds) describe the last accepted synchronisation. */
  datatype State =
    | Idle
    | Running(lastServerTick: nat, shown: int, base: int, correction: int, since: int)

  datatype Event =
    | Sync(serverTick: nat, ping: nat, now: int)
    | Tick(now: int)
    | Restart(now: int)

  /** A duration in nanoseconds as milliseconds, dropping the fraction on either side of zero. */
  function ToMs(x: int): int {
    if x >= 0 then x / 1_000_000 else -(-x / 1_000_000)
  }

  /** The conversion of a product of nanoseconds to nanoseconds, dropping the fraction likewise. */
  function PerSecond(x: int): int {
    if x >= 0 then x / 1_000_000_000 else -(-x / 1_000_000_000)
  }

  function Capped(elapsed: int): int {
    if elapsed < SECOND then elapsed else SECOND
  }

  /** The share of a correction that applies `elapsed` nanoseconds after a synchronisation. */
  function Share(correction: int, elapsed: int): int {
    PerSecond(Product(correction, Capped(elapsed)))
  }

  function TickAt(s: State, now: int): int
    requires s.Running?
  {
    var elapsed := now - s.since;
    ToMs(s.base + elapsed + Share(s.correction, elapsed))
  }

  function Estimate(e: Event): nat
    requires e.Sync?
  {
    e.serverTick + e.ping / 2
  }

  function Next(s: State, e: Event): State {
    match e
    case Sync(serverTick, _, now) =>
      if s.Idle? then
        if serverTick == 0 then Idle else Running(serverTick, Estimate(e), Estimate(e) * MS, 0, now)
      else if serverTick <= s.lastServerTick then s
      else Running(serverTick, s.shown, s.shown * MS, (Estimate(e) - s.shown) * MS, now)
    case Tick(now) =>
      if s.Idle? then Idle else s.(shown := TickAt(s, now))
    case Restart(_) =>
      Idle
  }

  function Shown(s: State): int {
    if s.Idle? then 0 else s.shown
  }

  /** What every state has: whole milliseconds, and both the last reported tick and the
    * server's estimate at least one millisecond. */
  predicate Sound(s: State) {
    s.Running? ==>
      s.shown >= 1
      && s.base % MS == 0 && s.base >= MS
      && s.correction % MS == 0 && s.base + s.correction >= MS
  }

  predicate Since(s: State, now: int) {
    s.Running? ==> s.since <= now
  }

  // ----- The clock as an object

  class SynchronizedClock {
    var lastServerTick: nat
    var simulatedTick: int
    var previousSimulatedTick: int
    var tickDelta: int
    var lastSynchronizationTime: int

    ghost predicate Valid()
      reads this
    {
      (simulatedTick == 0 ==> lastServerTick == 0) && Sound(Contents())
    }

    ghost function Contents(): State
      reads this
    {
      if simulatedTick == 0 then Idle
      else Running(lastServerTick, simulatedTick, previousSimulatedTick, tickDelta, lastSynchronizationTime)
    }

    constructor (now: int)
      ensures Valid() && Contents() == Idle
    {
      lastServerTick := 0;
      simulatedTick := 0;
      tickDelta := 0;
      lastSynchronizationTime := now;
    }

    method GetCurrentTick() returns (tick: int)
      ensures tick == Shown(Contents())
    {
      tick := simulatedTick;
    }

    method IsSynchronized() returns (synchronized: bool)
      ensures synchronized <==> Contents().Running?
    {
      synchronized := simulatedTick != 0;
    }

    method Synchronize(serverTick: nat, ping: nat, now: int)
      requires Valid()
      modifies this
      ensures Valid()
      ensures Contents() == Next(old(Contents()), Sync(serverTick, ping, now))
      ensures serverTick <= old(lastServerTick) ==> unchanged(this)
    {
      if serverTick <= lastServerTick {
        return;
      }
      lastServerTick := serverTick;
      var tripTime := ping / 2;
      lastSynchronizationTime := now;
      var synchronized := IsSynchronized();
      if synchronized {
        previousSimulatedTick := simulatedTick * MS;
        var estimatedServerTime := lastServerTick * MS + tripTime * MS;
        tickDelta := estimatedServerTime - previousSimulatedTick;
      } else {
        previousSimulatedTick := lastServerTick * MS + tripTime * MS;
        simulatedTick := ToMs(previousSimulatedTick);
        tickDelta := 0;
      }
    }

    method Reset(now: int)
      modifies this
      ensures Valid() && Contents() == Idle
    {
      lastServerTick := 0;
      simulatedTick := 0;
      previousSimulatedTick := *;
      tickDelta := 0;
      lastSynchronizationTime := now;
    }

    method Update(now: int)
      requires Valid() && lastSynchronizationTime <= now
      modifies this
      ensures Valid()
      ensures Contents() == Next(old(Contents()), Tick(now))
    {
      var delta := now - lastSynchronizationTime;
      var synchronized := IsSynchronized();
      if !synchronized {
        return;
      }
      var serverTickEstimate := previousSimulatedTick + delta;
      var diff := Share(tickDelta, delta);
      TickBounds(Contents(), now);
      simulatedTick := ToMs(serverTickEstimate + diff);
    }
  }

  // ----- Arithmetic of the correction

  lemma ShareKeepsOrder(correction: int, k: int, l: int)
    requires 0 <= k <= l
    ensures correction >= 0 ==> 0 <= Product(correction, k) <= Product(correction, l)
    ensures correction <= 0 ==> Product(correction, l) <= Product(correction, k) <= 0
    ensures correction >= -SECOND ==> Product(correction, l) >= Product(correction, k) + Product(-SECOND, l - k)
  {
    hide Product;
    ProductSign(correction, k);
    ProductMinus(correction, -SECOND, k, l);
    ProductSign(correction, l - k);
    ProductMinus(correction, -SECOND, l - k, l - k);
    ProductSign(correction + SECOND, l - k);
  }

  /** A share lies between nothing and the whole correction, and is all of it after a second. */
  lemma ShareBounds(correction: int, elapsed: int)
    requires elapsed >= 0
    ensures 0 <= correction ==> 0 <= Share(correction, elapsed) <= correction
    ensures correction <= 0 ==> correction <= Share(correction, elapsed) <= 0
    ensures elapsed >= SECOND ==> Share(correction, elapsed) == correction
    ensures Share(correction, 0) == 0
  {
    ShareKeepsOrder(correction, 0, Capped(elapsed));
    ShareKeepsOrder(correction, Capped(elapsed), SECOND);
    assert Product(correction, 0) == 0;
    assert Product(correction, SECOND) == correction * 1_000_000_000;
  }

  /** No correction above minus one second takes back more than the time that passed, whatever the fractions. */
  lemma ShareKeepsUp(correction: int, early: int, late: int)
    requires correction >= -SECOND
    requires 0 <= early <= late
    ensures early + Share(correction, early) <= late + Share(correction, late)
  {
    var k, l := Capped(early), Capped(late);
    ShareKeepsOrder(correction, k, l);
    assert Product(-SECOND, l - k) == -1_000_000_000 * (l - k);
    hide Product;
  }

  // ----- One update

  /** The tick lies between the last reported one and the server's estimate, both moved on by the
    * time elapsed, and equals the latter once a second has passed. */
  lemma TickBounds(s: State, now: int)
    requires Sound(s) && s.Running? && s.since <= now
    ensures var reported := (s.base + (now - s.since)) / MS;
            var server := (s.base + s.correction + (now - s.since)) / MS;
            (if s.correction >= 0 then reported <= TickAt(s, now) <= server else server <= TickAt(s, now) <= reported)
            && (now - s.since >= SECOND ==> TickAt(s, now) == server)
            && TickAt(s, now) >= 1
  {
    var elapsed := now - s.since;
    ShareBounds(s.correction, elapsed);
    var x := s.base + elapsed + Share(s.correction, elapsed);
    assert x >= MS;
    hide Share;
  }

  /** A correction is spread evenly over the second: after x nanoseconds the tick is what the last reported one, the
    * time and x seconds' share of the correction come to, but for less than a millisecond and a nanosecond. */
  lemma CorrectionIsSpread(s: State, x: int)
    requires Sound(s) && s.Running? && 0 <= x <= SECOND
    ensures var shown := TickAt(s, s.since + x) * MS * SECOND;
            var even := (s.base + x) * SECOND + s.correction * x;
            even - (MS + 1) * SECOND < shown < even + (MS + 1) * SECOND
    ensures s.correction >= 0 ==> TickAt(s, s.since + x) == ((s.base + x) * SECOND + s.correction * x) / (MS * SECOND)
  {
    var p := s.correction * x;
    assert Product(s.correction, x) == p;
    ShareBounds(s.correction, x);
    ProductSign(s.correction, x);
    SpreadAlgebra(s.base + x, p, PerSecond(p));
  }

  lemma SpreadAlgebra(t: int, p: int, share: int)
    requires share == PerSecond(p) && t + share >= 0
    ensures var shown := ToMs(t + share) * MS * SECOND;
            var even := t * SECOND + p;
            even - (MS + 1) * SECOND < shown < even + (MS + 1) * SECOND
    ensures p >= 0 ==> ToMs(t + share) == (t * SECOND + p) / (MS * SECOND)
  {
  }

  /** A tick reported right at the synchronisation is the one reported before it. */
  lemma TickAtSync(s: State)
    requires s.Running? && s.base % MS == 0
    ensures TickAt(s, s.since) == s.base / MS
  {
    ShareBounds(s.correction, 0);
  }

  lemma TicksNeverDecrease(s: State, early: int, late: int)
    requires s.Running? && s.correction >= -SECOND && s.since <= early <= late
    ensures TickAt(s, early) <= TickAt(s, late)
  {
    hide Share;
    ShareKeepsUp(s.correction, early - s.since, late - s.since);
  }

  ghost predicate NeverDecreases(s: State)
    requires s.Running?
  {
    forall early, late :: s.since <= early <= late ==> TickAt(s, early) <= TickAt(s, late)
  }

  /** The ticks after a synchronisation never decrease exactly when its correction is at least minus one second. */
  lemma NeverDecreasesIff(s: State)
    requires Sound(s) && s.Running?
    ensures NeverDecreases(s) <==> s.correction >= -SECOND
  {
    if s.correction >= -SECOND {
      forall early, late | s.since <= early <= late
        ensures TickAt(s, early) <= TickAt(s, late)
      {
        TicksNeverDecrease(s, early, late);
      }
    } else {
      var end := s.since + SECOND;
      TickAtSync(s);
      TickBounds(s, end);
      assert s.correction <= -SECOND - MS;
      assert s.base + s.correction + SECOND <= s.base - MS;
      assert TickAt(s, end) < TickAt(s, s.since);
    }
  }

  // ----- Runs

  function Time(e: Event): int {
    e.now
  }

  function Run(s: State, events: seq<Event>): State
    decreases |events|
  {
    if events == [] then s else Run(Next(s, events[0]), events[1..])
  }

  /** Local time never goes back. */
  predicate Timely(events: seq<Event>) {
    forall i, j :: 0 <= i < j < |events| ==> Time(events[i]) <= Time(events[j])
  }

  predicate StartsAfter(s: State, events: seq<Event>) {
    forall i :: 0 <= i < |events| ==> Since(s, Time(events[i]))
  }

  predicate NoRestart(events: seq<Event>) {
    forall i :: 0 <= i < |events| ==> !events[i].Restart?
  }

  lemma NextIsSound(s: State, e: Event)
    requires Sound(s) && Since(s, e.now)
    ensures Sound(Next(s, e)) && Since(Next(s, e), e.now)
    ensures s.Running? && !e.Restart? ==> Next(s, e).Running?
  {
    if s.Running? && e.Tick? {
      TickBounds(s, e.now);
    }
  }

  /** Once synchronised, the clock stays synchronised until it is reset, however large the corrections. */
  lemma {:induction false} StaysSynchronized(s: State, events: seq<Event>)
    requires Sound(s) && Timely(events) && StartsAfter(s, events)
    ensures Sound(Run(s, events))
    ensures s.Running? && NoRestart(events) ==> Run(s, events).Running? && Shown(Run(s, events)) >= 1
    decreases |events|
  {
    if events != [] {
      NextIsSound(s, events[0]);
      StaysSynchronized(Next(s, events[0]), events[1..]);
    }
  }

  /** The synchronisations of a run that correct a running clock. */
  predicate Corrects(s: State, e: Event) {
    s.Running? && e.Sync? && e.serverTick > s.lastServerTick
  }

  /** Every accepted correction of the run is at least minus one second. */
  predicate Gentle(s: State, events: seq<Event>)
    decreases |events|
  {
    events == []
    || (&& (Corrects(s, events[0]) ==> Estimate(events[0]) - s.shown >= -1000)
        && Gentle(Next(s, events[0]), events[1..]))
  }

  /** Whatever is reported from `now` on, it is no less than what was reported before. */
  predicate Ahead(s: State, now: int) {
    s.Running? ==> s.correction >= -SECOND && s.since <= now && s.shown <= TickAt(s, now)
  }

  lemma ShownAside(s: State, shown: int, now: int)
    requires s.Running?
    ensures TickAt(s.(shown := shown), now) == TickAt(s, now)
  {
  }

  lemma NextIsAhead(s: State, e: Event, before: int)
    requires Sound(s) && Ahead(s, before) && before <= e.now
    requires Corrects(s, e) ==> Estimate(e) - s.shown >= -1000
    ensures Ahead(Next(s, e), e.now)
    ensures !e.Restart? ==> Shown(s) <= Shown(Next(s, e))
  {
    hide Share, TickAt;
    var t := Next(s, e);
    if s.Running? {
      ShownAside(s, TickAt(s, e.now), e.now);
      TicksNeverDecrease(s, before, e.now);
    }
    if t.Running? && e.Sync? && t.since == e.now && t.lastServerTick == e.serverTick {
      TickAtSync(t);
    }
  }

  /** What the clock shows after each event. */
  function Readings(s: State, events: seq<Event>): seq<int>
    decreases |events|
  {
    if events == [] then [Shown(s)] else [Shown(s)] + Readings(Next(s, events[0]), events[1..])
  }

  predicate Ascending(xs: seq<int>) {
    forall i, j :: 0 <= i < j < |xs| ==> xs[i] <= xs[j]
  }

  /** Over every run without a reset whose corrections are gentle, the ticks reported never
    * decrease, across updates and across synchronisations. */
  lemma {:induction false} ReadingsNeverDecrease(s: State, events: seq<Event>, now: int)
    requires Sound(s) && Ahead(s, now)
    requires Timely(events) && (forall i :: 0 <= i < |events| ==> now <= Time(events[i]))
    requires NoRestart(events) && Gentle(s, events)
    ensures |Readings(s, events)| == |events| + 1 && Readings(s, events)[0] == Shown(s)
    ensures Ascending(Readings(s, events))
    decreases |events|
  {
    if events != [] {
      var t, rest := Next(s, events[0]), events[1..];
      NextIsSound(s, events[0]);
      NextIsAhead(s, events[0], now);
      assert Time(events[0]) == events[0].now;
      ReadingsNeverDecrease(t, rest, events[0].now);
      assert Readings(s, events) == [Shown(s)] + Readings(t, rest);
    }
  }

  /** A correction below minus one second is seen to go back: a second later the clock shows
    * less than it showed before the synchronisation. */
  lemma HarshCorrectionGoesBack(s: State, e: Event)
    requires Sound(s) && Corrects(s, e) && Estimate(e) - s.shown < -1000
    ensures Shown(Next(Next(s, e), Tick(e.now + SECOND))) < Shown(s)
  {
    TickBounds(Next(s, e), e.now + SECOND);
  }

  /** A second after an accepted synchronisation, the clock shows the server's estimate moved on. */
  lemma CatchesUp(s: State, e: Event, elapsed: int)
    requires Sound(s) && e.Sync? && elapsed >= SECOND
    requires e.serverTick > (if s.Running? then s.lastServerTick else 0)
    ensures Shown(Next(Next(s, e), Tick(e.now + elapsed))) == e.serverTick + e.ping / 2 + elapsed / MS
  {
    var t := Next(s, e);
    TickBounds(t, e.now + elapsed);
    assert t.base + t.correction == Estimate(e) * MS;
  }

  /** The first server tick is shown at once with half the round trip; a later one is not shown before the next
    * update. */
  lemma ShownAtSync(s: State, e: Event)
    requires Sound(s) && e.Sync?
    ensures Shown(Next(s, e)) == if s.Idle? && e.serverTick > 0 then e.serverTick + e.ping / 2 else Shown(s)
  {
  }

  /** After an accepted server tick, neither the same one nor an earlier one changes anything, whatever its
    * round trip. */
  lemma StaleTicksAreIgnored(s: State, e: Event, updates: seq<Event>, stale: Event)
    requires Sound(s) && e.Sync? && stale.Sync? && stale.serverTick <= e.serverTick
    requires e.serverTick > (if s.Running? then s.lastServerTick else 0)
    requires forall i :: 0 <= i < |updates| ==> updates[i].Tick?
    ensures var t := Run(Next(s, e), updates);
            t.Running? && t.lastServerTick == e.serverTick && Next(t, stale) == t
  {
    UpdatesKeepServerTick(Next(s, e), updates);
  }

  lemma {:induction false} UpdatesKeepServerTick(s: State, updates: seq<Event>)
    requires s.Running? && forall i :: 0 <= i < |updates| ==> updates[i].Tick?
    ensures var t := Run(s, updates); t.Running? && t.lastServerTick == s.lastServerTick
    decreases |updates|
  {
    if updates != [] {
      UpdatesKeepServerTick(Next(s, updates[0]), updates[1..]);
    }
  }
}
