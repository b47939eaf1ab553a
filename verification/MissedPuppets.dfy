/** A run of the whole system in which a client comes to miss a puppet: what agreement needs its condition for. */
module MissedPuppets {

  import opened Options
  import opened Replication

  /** One more event of a run. */
  lemma {:induction false} RunMore(s: State, events: seq<Event>, e: Event)
    requires Legal(false, s, events) && SpawnsOnce(false, s, events)
    requires var t := Run(false, s, events);
             Allowed(t, e) && (e.Spawn? && e.c in t.server.players ==> t.server.players[e.c].puppet.None?)
    ensures Legal(false, s, events + [e]) && SpawnsOnce(false, s, events + [e])
    ensures Run(false, s, events + [e]) == Next(false, Run(false, s, events), e)
    decreases |events|
  {
    hide Allowed, Next;
    if events == [] {
      assert events + [e] == [e] && [e][1..] == [];
    } else {
      assert (events + [e])[0] == events[0] && (events + [e])[1..] == events[1..] + [e];
      RunMore(Next(false, s, events[0]), events[1..], e);
    }
  }

  lemma TwoMore(s: State, events: seq<Event>, e: Event, f: Event)
    requires Legal(false, s, events) && SpawnsOnce(false, s, events)
    requires var t := Run(false, s, events);
             Legal(false, t, [e, f]) && !f.Spawn?
             && (e.Spawn? && e.c in t.server.players ==> t.server.players[e.c].puppet.None?)
    ensures Legal(false, s, events + [e] + [f]) && SpawnsOnce(false, s, events + [e] + [f])
    ensures Run(false, s, events + [e] + [f]) == Run(false, Run(false, s, events), [e, f])
  {
    hide Allowed, Next;
    var t := Run(false, s, events);
    assert [e, f][0] == e && [e, f][1..] == [f] && [f][1..] == [];
    var u := Next(false, t, e);
    assert Legal(false, u, [f]) && Run(false, t, [e, f]) == Run(false, u, [f]);
    assert Run(false, u, [f]) == Run(false, Next(false, u, f), []);
    RunMore(s, events, e);
    RunMore(s, events + [e], f);
  }

  /** One player is in the level and knows it, and another has authenticated. */
  function Waiting(): State {
    State(Server(map[0 := Player(Some(0), true), 1 := Player(None, false)], map[0 := 0],
                 map[0 := [], 1 := [Settings, Settings]]),
          map[0 := World({}, Some(0)), 1 := World({}, None)])
  }

  ghost predicate Leads(events: seq<Event>, s: State) {
    Legal(false, START, events) && SpawnsOnce(false, START, events) && Creates(events) && Run(false, START, events) == s
  }

  lemma LeadsOn(events: seq<Event>, s: State, e: Event, t: State) returns (more: seq<Event>)
    requires Leads(events, s) && Allowed(s, e) && Next(false, s, e) == t
    requires e.Spawn? && e.c in s.server.players ==> s.server.players[e.c].puppet.None?
    requires e.Deliver? ==> e.created
    ensures Leads(more, t)
  {
    hide Allowed, Next, Legal, SpawnsOnce, Run;
    RunMore(START, events, e);
    more := events + [e];
    assert forall f <- more :: f in events || f == e;
  }

  /** The first player's way into the level: its own messages arrive one by one. */
  function Entering(inbox: seq<Message>, w: World): State {
    State(Server(map[0 := Player(Some(0), true)], map[0 := 0], map[0 := inbox]), map[0 := w])
  }

  lemma Enters(events: seq<Event>) returns (more: seq<Event>)
    requires Leads(events, START)
    ensures Leads(more, Entering([], World({}, Some(0))))
  {
    hide Leads, Spawned;
    var blank := World({}, None);
    assert [Settings, Settings, SpawnResponse(Some(0))] == [Settings] + [Settings, SpawnResponse(Some(0))];
    assert [Settings, SpawnResponse(Some(0))] == [Settings] + [SpawnResponse(Some(0))];
    assert [SpawnResponse(Some(0))] == [SpawnResponse(Some(0))] + [];
    var connected := State(Server(map[], map[], map[0 := []]), map[0 := blank]);
    var known := State(Server(map[0 := Player(None, false)], map[], map[0 := [Settings, Settings]]), map[0 := blank]);
    more := LeadsOn(events, START, Connect(0, None), connected);
    Authenticates(connected, 0);
    more := LeadsOn(more, connected, Authenticate(0, true), known);
    EntersLevel(known);
    more := LeadsOn(more, known, Spawn(0, 0, []), Entering([Settings, Settings, SpawnResponse(Some(0))], blank));
    more := Receives(more, Settings, [Settings, SpawnResponse(Some(0))], blank);
    more := Receives(more, Settings, [SpawnResponse(Some(0))], blank);
    more := Receives(more, SpawnResponse(Some(0)), [], blank);
  }

  lemma Receives(events: seq<Event>, m: Message, rest: seq<Message>, w: World) returns (more: seq<Event>)
    requires Leads(events, Entering([m] + rest, w))
    ensures Leads(more, Entering(rest, Apply(w, m)))
  {
    hide Leads, Apply;
    var s := Entering([m] + rest, w);
    assert ([m] + rest)[0] == m && ([m] + rest)[1..] == rest;
    assert Next(false, s, Deliver(0, true)) == Entering(rest, Apply(w, m));
    more := LeadsOn(events, s, Deliver(0, true), Entering(rest, Apply(w, m)));
  }

  lemma EntersLevel(s: State)
    requires s == State(Server(map[0 := Player(None, false)], map[], map[0 := [Settings, Settings]]),
                        map[0 := World({}, None)])
    ensures Allowed(s, Spawn(0, 0, []))
    ensures Next(false, s, Spawn(0, 0, [])) == Entering([Settings, Settings, SpawnResponse(Some(0))], World({}, None))
  {
    assert OfOthers(s.server.actors, 0) == {};
    ListsNone();
    var players := s.server.players[0 := Player(Some(0), true)];
    var answered := Post(s.server.outbox, 0, [SpawnResponse(Some(0))]);
    assert [Settings, Settings] + [SpawnResponse(Some(0))] == [Settings, Settings, SpawnResponse(Some(0))];
    assert answered == map[0 := [Settings, Settings, SpawnResponse(Some(0))]];
    assert Audience(false, InLevel(players), 0) == {};
    BroadcastNone(answered, Load(0));
    PostNone(answered, 0);
    assert players == map[0 := Player(Some(0), true)];
    assert s.server.actors[0 := 0] == map[0 := 0];
  }

  lemma Authenticates(s: State, c: Conn)
    requires c in s.worlds && c !in s.server.players && c in s.server.outbox && s.server.outbox[c] == []
    ensures Next(false, s, Authenticate(c, true))
            == s.(server := Server(s.server.players[c := Player(None, false)], s.server.actors,
                                   s.server.outbox[c := [Settings, Settings]]))
  {
    assert [] + [Settings, Settings] == [Settings, Settings];
  }

  lemma Waits() returns (events: seq<Event>)
    ensures Leads(events, Waiting())
  {
    assert Leads([], START);
    events := Enters([]);
    hide Leads;
    var s := Entering([], World({}, Some(0)));
    var t := State(s.server.(outbox := map[0 := [], 1 := []]), s.worlds[1 := World({}, None)]);
    events := LeadsOn(events, s, Connect(1, None), t);
    Authenticates(t, 1);
    events := LeadsOn(events, t, Authenticate(1, true), Waiting());
  }

  /** From an empty server with one spawn per connection, a client comes to miss a puppet for good by not creating
    * it. */
  lemma RunThatMisses() returns (events: seq<Event>)
    ensures Legal(false, START, events) && SpawnsOnce(false, START, events)
    ensures !InSync(false, Run(false, START, events))
  {
    events := Waits();
    var s, order := Waiting(), [0];
    SpawningOnceNeverStrands(false, START, events);
    RunKeepsSync(false, START, events);
    assert InSync(false, s) && Lists(order, OfOthers(s.server.actors, 1));
    UncreatedIsMissed(false, s, 0, 1, 1, order);
    var e, f := Spawn(1, 1, order), Deliver(0, false);
    TwoMore(START, events, e, f);
    events := events + [e] + [f];
  }
}
