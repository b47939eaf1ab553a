/** The server tells each connected client which other players' puppets exist;
  * the client keeps its own set of replicas. One first-in first-out queue per connection. */
module Replication {

  import opened Options

  /** A connection, and the player entity named after it. */
  type Conn = nat

  /** An entity of the server's world. */
  type Id = nat

  datatype Message =
    | Settings
    | Refusal
    | SpawnResponse(puppet: Option<Id>)
    | Load(id: Id)
    | Unload(id: Id)

  // ----- The client's side

  /** What a client shows, and which server entity it takes for its own character. */
  datatype World = World(replicas: set<Id>, remotePlayerId: Option<Id>)

  function Apply(w: World, m: Message): World {
    match m
    case Settings => w
    case Refusal => w
    case SpawnResponse(None) => w
    case SpawnResponse(Some(id)) => w.(remotePlayerId := Some(id))
    case Load(id) => w.(replicas := w.replicas + {id})
    case Unload(id) => w.(replicas := w.replicas - {id})
  }

  /** A world is not ready for a puppet, or the engine does not create it. */
  function Handled(w: World, m: Message, created: bool): World {
    if m.Load? && !created then w else Apply(w, m)
  }

  /** The world once every message under way has arrived, and every puppet is created. */
  function Drained(w: World, inbox: seq<Message>): World
    decreases |inbox|
  {
    if inbox == [] then w else Drained(Apply(w, inbox[0]), inbox[1..])
  }

  class NetworkWorldSystem {
    var replicas: set<Id>
    var remotePlayerId: Option<Id>

    ghost function Contents(): World
      reads this
    {
      World(replicas, remotePlayerId)
    }

    method Spawn(id: Id, created: bool) returns (ok: bool)
      modifies this
      ensures ok == created
      ensures Contents() == if created then Apply(old(Contents()), Load(id)) else old(Contents())
    {
      if !created {
        return false;
      }
      replicas := replicas + {id};
      return true;
    }

    method DeSpawn(id: Id)
      modifies this
      ensures Contents() == Apply(old(Contents()), Unload(id))
    {
      if id !in replicas {
        assert replicas - {id} == replicas;
        return;
      }
      replicas := replicas - {id};
    }

    method HandleSpawnCharacterResponse(id: Option<Id>)
      modifies this
      ensures Contents() == Apply(old(Contents()), SpawnResponse(id))
      ensures replicas == old(replicas) && remotePlayerId == if id.Some? then id else old(remotePlayerId)
    {
      if id.None? {
        return;
      }
      remotePlayerId := id;
    }

    /** Dispatches one message. */
    method Handle(m: Message, created: bool)
      modifies this
      ensures Contents() == Handled(old(Contents()), m, created)
      ensures replicas == match m
                          case Load(id) => if created then old(replicas) + {id} else old(replicas)
                          case Unload(id) => old(replicas) - {id}
                          case _ => old(replicas)
      ensures remotePlayerId == if m.SpawnResponse? && m.puppet.Some? then m.puppet else old(remotePlayerId)
    {
      match m
      case Load(id) =>
        var _ := Spawn(id, created);
      case Unload(id) =>
        DeSpawn(id);
      case SpawnResponse(id) =>
        HandleSpawnCharacterResponse(id);
      case _ =>
    }
  }

  // ----- The server's side

  /** A player's component: its puppet, and whether it has been put into the level. */
  datatype Player = Player(puppet: Option<Id>, inLevel: bool)

  /** `actors` are the puppets in the level, each with the player entity it is a child of. */
  datatype Server = Server(players: map<Conn, Player>, actors: map<Id, Conn>, outbox: map<Conn, seq<Message>>)

  /** Sending to a connection that is gone does nothing. */
  function Post(outbox: map<Conn, seq<Message>>, c: Conn, ms: seq<Message>): map<Conn, seq<Message>> {
    if c in outbox then outbox[c := outbox[c] + ms] else outbox
  }

  function Broadcast(outbox: map<Conn, seq<Message>>, audience: set<Conn>, m: Message): map<Conn, seq<Message>> {
    map c | c in outbox :: if c in audience then outbox[c] + [m] else outbox[c]
  }

  /** A build for debugging also shows players their own puppet. */
  function Audience(debug: bool, players: set<Conn>, owner: Conn): set<Conn> {
    if debug then players else players - {owner}
  }

  function InLevel(players: map<Conn, Player>): set<Conn> {
    set p | p in players && players[p].inLevel
  }

  function OfOthers(actors: map<Id, Conn>, c: Conn): set<Id> {
    set a | a in actors && actors[a] != c
  }

  function Loads(order: seq<Id>): seq<Message> {
    seq(|order|, i requires 0 <= i < |order| => Load(order[i]))
  }

  /** An order in which the entity store enumerates a set. */
  predicate Lists(order: seq<Id>, ids: set<Id>) {
    (forall i, j :: 0 <= i < j < |order| ==> order[i] != order[j])
    && (set a | a in order) == ids
  }

  lemma ListsMore(order: seq<Id>, ids: set<Id>, a: Id)
    requires Lists(order, ids) && a !in ids
    ensures Lists(order + [a], ids + {a})
  {
    assert forall b <- order :: b in (set x | x in order);
    assert (set x | x in order + [a]) == ids + {a};
  }

  lemma ListsNone()
    ensures Lists([], {})
  {
  }

  function Authenticated(sv: Server, c: Conn): Server {
    sv.(players := if c in sv.players then sv.players else sv.players[c := Player(None, false)],
        outbox := Post(sv.outbox, c, [Settings, Settings]))
  }

  function Spawned(debug: bool, sv: Server, c: Conn, id: Id, order: seq<Id>): Server {
    if c !in sv.players then sv.(outbox := Post(sv.outbox, c, [SpawnResponse(None)]))
    else
      var players := sv.players[c := Player(Some(id), true)];
      var answered := Post(sv.outbox, c, [SpawnResponse(Some(id))]);
      var announced := Broadcast(answered, Audience(debug, InLevel(players), c), Load(id));
      Server(players, sv.actors[id := c], Post(announced, c, Loads(order)))
  }

  function Closed(debug: bool, sv: Server, c: Conn): Server {
    var outbox := sv.outbox - {c};
    if c !in sv.players then sv.(outbox := outbox)
    else
      match sv.players[c].puppet
      case None => Server(sv.players - {c}, WithoutChildren(sv.actors, c), outbox)
      case Some(id) =>
        Server(sv.players - {c}, WithoutChildren(sv.actors - {id}, c),
               Broadcast(outbox, Audience(debug, sv.players.Keys, c), Unload(id)))
  }

  /** The actors left when a player's entity is destroyed with all its children. */
  function WithoutChildren(actors: map<Id, Conn>, c: Conn): map<Id, Conn> {
    map a | a in actors && actors[a] != c :: actors[a]
  }

  lemma BroadcastNone(outbox: map<Conn, seq<Message>>, m: Message)
    ensures Broadcast(outbox, {}, m) == outbox
  {
  }

  lemma BroadcastMore(outbox: map<Conn, seq<Message>>, audience: set<Conn>, p: Conn, m: Message)
    requires p !in audience
    ensures Broadcast(outbox, audience + {p}, m) == Post(Broadcast(outbox, audience, m), p, [m])
  {
  }

  lemma PostNone(outbox: map<Conn, seq<Message>>, c: Conn)
    ensures Post(outbox, c, Loads([])) == outbox
  {
    assert c in outbox ==> outbox[c] + Loads([]) == outbox[c];
  }

  lemma PostMore(outbox: map<Conn, seq<Message>>, c: Conn, order: seq<Id>, a: Id)
    ensures Post(Post(outbox, c, Loads(order)), c, [Load(a)]) == Post(outbox, c, Loads(order + [a]))
  {
    assert Loads(order) + [Load(a)] == Loads(order + [a]);
    assert c in outbox ==> outbox[c] + Loads(order) + [Load(a)] == outbox[c] + (Loads(order) + [Load(a)]);
  }

  class GameServer {
    const debug: bool
    var registered: set<Conn>
    var components: map<Conn, Player>
    var actors: map<Id, Conn>
    var outbox: map<Conn, seq<Message>>

    /** The player manager knows exactly the players the world has. */
    ghost predicate Valid()
      reads this
    {
      registered == components.Keys
    }

    ghost function Contents(): Server
      reads this
    {
      Server(components, actors, outbox)
    }

    constructor (debug: bool)
      ensures Valid() && this.debug == debug
      ensures Contents() == Server(map[], map[], map[])
    {
      this.debug := debug;
      registered := {};
      components := map[];
      actors := map[];
      outbox := map[];
    }

    method Send(c: Conn, m: Message)
      modifies this`outbox
      ensures outbox == Post(old(outbox), c, [m])
    {
      if c in outbox {
        outbox := outbox[c := outbox[c] + [m]];
      }
    }

    method OnConnection(c: Conn)
      requires Valid() && c !in outbox
      modifies this`outbox
      ensures Valid() && Contents() == old(Contents()).(outbox := old(outbox)[c := []])
    {
      outbox := outbox[c := []];
    }

    method GetByConnectionId(c: Conn) returns (player: Option<Conn>)
      requires Valid()
      ensures player == if c in components then Some(c) else None
    {
      return if c in registered then Some(c) else None;
    }

    method Create(c: Conn)
      requires Valid()
      modifies this`registered, this`components
      ensures Valid()
      ensures components == if c in old(components) then old(components) else old(components)[c := Player(None, false)]
    {
      if c !in registered {
        components := components[c := Player(None, false)];
        registered := registered + {c};
      }
    }

    /** A request with the wrong protocol is answered and its connection closed. */
    method HandleAuthentication(c: Conn, protocolsMatch: bool)
      requires Valid()
      modifies this
      ensures Valid()
      ensures Contents() == if protocolsMatch then Authenticated(old(Contents()), c)
              else Closed(debug, old(Contents()), c)
    {
      if !protocolsMatch {
        Send(c, Refusal);
        var sv := Contents();
        OnDisconnection(c);
        assert sv.outbox - {c} == old(outbox) - {c};
        return;
      }
      Send(c, Settings);
      Send(c, Settings);
      assert outbox == Post(old(outbox), c, [Settings, Settings]) by {
        assert c in old(outbox) ==> old(outbox)[c] + [Settings] + [Settings] == old(outbox)[c] + [Settings, Settings];
      }
      Create(c);
    }

    /** Shows a puppet that enters the level to every player in it. */
    method Add(id: Id, owner: Conn)
      modifies this`actors, this`outbox
      ensures actors == old(actors)[id := owner]
      ensures outbox == Broadcast(old(outbox), Audience(debug, InLevel(components), owner), Load(id))
    {
      hide Broadcast, Post;
      actors := actors[id := owner];
      var todo := components.Keys;
      ghost var told: set<Conn> := {};
      BroadcastNone(outbox, Load(id));
      while todo != {}
        invariant actors == old(actors)[id := owner]
        invariant todo <= components.Keys && told == Audience(debug, InLevel(components), owner) - todo
        invariant outbox == Broadcast(old(outbox), told, Load(id))
      {
        var p :| p in todo;
        if components[p].inLevel && (debug || owner != p) {
          Send(p, Load(id));
          BroadcastMore(old(outbox), told, p, Load(id));
          told := told + {p};
        }
        todo := todo - {p};
      }
      assert told == Audience(debug, InLevel(components), owner);
    }

    /** The puppet first, then everyone else's puppets to its player. */
    method AddPlayer(c: Conn, id: Id) returns (ghost order: seq<Id>)
      requires c in components && components[c].puppet == Some(id)
      modifies this`components, this`actors, this`outbox
      ensures components == old(components)[c := Player(Some(id), true)]
      ensures actors == old(actors)[id := c]
      ensures Lists(order, OfOthers(actors, c))
      ensures outbox == Post(Broadcast(old(outbox), Audience(debug, InLevel(components), c), Load(id)), c, Loads(order))
    {
      hide Broadcast, Post, Loads, Lists;
      components := components[c := components[c].(inLevel := true)];
      Add(id, c);
      ghost var announced := outbox;
      var todo := actors.Keys;
      ghost var shown: set<Id> := {};
      order := [];
      PostNone(outbox, c);
      ListsNone();
      while todo != {}
        invariant components == old(components)[c := Player(Some(id), true)] && actors == old(actors)[id := c]
        invariant todo <= actors.Keys && shown == OfOthers(actors, c) - todo
        invariant Lists(order, shown)
        invariant outbox == Post(announced, c, Loads(order))
      {
        var a :| a in todo;
        if actors[a] != c {
          Send(c, Load(a));
          PostMore(announced, c, order, a);
          ListsMore(order, shown, a);
          order := order + [a];
          shown := shown + {a};
        }
        todo := todo - {a};
      }
      assert shown == OfOthers(actors, c);
    }

    /** `id` is what the entity store hands out for the new puppet: no actor that is alive. */
    method HandleSpawnCharacterRequest(c: Conn, id: Id) returns (ghost order: seq<Id>)
      requires Valid() && id !in actors
      modifies this
      ensures Valid()
      ensures c in old(components) ==> Lists(order, OfOthers(old(actors), c))
      ensures Contents() == Spawned(debug, old(Contents()), c, id, order)
    {
      var player := GetByConnectionId(c);
      if player.None? {
        Send(c, SpawnResponse(None));
        return [];
      }
      components := components[c := components[c].(puppet := Some(id))];
      Send(c, SpawnResponse(Some(id)));
      assert OfOthers(actors[id := c], c) == OfOthers(actors, c);
      order := AddPlayer(c, id);
      assert components == old(components)[c := Player(Some(id), true)];
    }

    /** Removes a puppet from the level and from every player's world. */
    method Remove(id: Id, owner: Conn)
      modifies this`actors, this`outbox
      ensures actors == old(actors) - {id}
      ensures outbox == Broadcast(old(outbox), Audience(debug, components.Keys, owner), Unload(id))
    {
      hide Broadcast, Post;
      var todo := components.Keys;
      ghost var told: set<Conn> := {};
      BroadcastNone(outbox, Unload(id));
      while todo != {}
        invariant actors == old(actors)
        invariant todo <= components.Keys && told == Audience(debug, components.Keys, owner) - todo
        invariant outbox == Broadcast(old(outbox), told, Unload(id))
      {
        var p :| p in todo;
        if debug || owner != p {
          Send(p, Unload(id));
          BroadcastMore(old(outbox), told, p, Unload(id));
          told := told + {p};
        }
        todo := todo - {p};
      }
      assert told == Audience(debug, components.Keys, owner);
      actors := actors - {id};
    }

    /** The connection is gone already; the player's entity takes its remaining children with it. */
    method OnDisconnection(c: Conn)
      requires Valid()
      modifies this
      ensures Valid()
      ensures Contents() == Closed(debug, old(Contents()), c)
    {
      outbox := outbox - {c};
      var player := GetByConnectionId(c);
      if player.Some? {
        registered := registered - {c};
        if components[c].puppet.Some? {
          Remove(components[c].puppet.value, c);
        }
        components := components - {c};
        actors := WithoutChildren(actors, c);
      }
    }
  }

  // ----- The whole system

  /** The server, and the world of every connected client. */
  datatype State = State(server: Server, worlds: map<Conn, World>)

  /** What can happen next. A spawn names the entity created and the order in which the entity store
    * enumerates the others' puppets; a connecting client still has the character id of its last session;
    * a delivery says whether the engine would create a puppet. */
  datatype Event =
    | Connect(c: Conn, lastPlayerId: Option<Id>)
    | Authenticate(c: Conn, protocolsMatch: bool)
    | Spawn(c: Conn, id: Id, order: seq<Id>)
    | Disconnect(c: Conn)
    | Deliver(c: Conn, created: bool)

  predicate Allowed(s: State, e: Event) {
    match e
    case Connect(c, _) => c !in s.worlds
    case Authenticate(c, _) => c in s.worlds
    case Spawn(c, id, order) =>
      c in s.worlds && id !in s.server.actors && (c in s.server.players ==> Lists(order, OfOthers(s.server.actors, c)))
    case Disconnect(c) => c in s.worlds
    case Deliver(c, _) => c in s.worlds && c in s.server.outbox && s.server.outbox[c] != []
  }

  function Next(debug: bool, s: State, e: Event): State
    requires Allowed(s, e)
  {
    match e
    case Connect(c, last) =>
      State(s.server.(outbox := s.server.outbox[c := []]), s.worlds[c := World({}, last)])
    case Authenticate(c, true) =>
      s.(server := Authenticated(s.server, c))
    case Authenticate(c, false) =>
      State(Closed(debug, s.server, c), s.worlds - {c})
    case Spawn(c, id, order) =>
      s.(server := Spawned(debug, s.server, c, id, order))
    case Disconnect(c) =>
      State(Closed(debug, s.server, c), s.worlds - {c})
    case Deliver(c, created) =>
      var inbox := s.server.outbox[c];
      State(s.server.(outbox := s.server.outbox[c := inbox[1..]]),
            s.worlds[c := Handled(s.worlds[c], inbox[0], created)])
  }

  /** Every player is connected; players in the level have a live puppet that is their own child. */
  predicate Consistent(s: State) {
    var sv := s.server;
    s.worlds.Keys == sv.outbox.Keys
    && sv.players.Keys <= sv.outbox.Keys
    && (forall a <- sv.actors :: sv.actors[a] in sv.players && sv.players[sv.actors[a]].inLevel)
    && (forall p <- sv.players :: HasPuppet(sv, p))
  }

  predicate HasPuppet(sv: Server, p: Conn)
    requires p in sv.players
  {
    match sv.players[p].puppet
    case None => !sv.players[p].inLevel
    case Some(id) => sv.players[p].inLevel && id in sv.actors && sv.actors[id] == p
  }

  /** The puppets a client ought to show. */
  function Visible(debug: bool, sv: Server, c: Conn): set<Id> {
    if c in sv.players && sv.players[c].inLevel then
      if debug then sv.actors.Keys else OfOthers(sv.actors, c)
    else {}
  }

  /** A client's world once everything under way to it has arrived. */
  function View(s: State, c: Conn): World
    requires c in s.worlds && c in s.server.outbox
  {
    Drained(s.worlds[c], s.server.outbox[c])
  }

  predicate Agrees(debug: bool, s: State, c: Conn)
    requires c in s.worlds && c in s.server.outbox
  {
    View(s, c).replicas == Visible(debug, s.server, c)
    && (c in s.server.players && s.server.players[c].puppet.Some? ==>
          View(s, c).remotePlayerId == s.server.players[c].puppet)
  }

  predicate InSync(debug: bool, s: State) {
    Consistent(s) && forall c <- s.worlds :: Agrees(debug, s, c)
  }

  // ----- Draining

  lemma {:induction false} DrainedAppend(w: World, xs: seq<Message>, ys: seq<Message>)
    ensures Drained(w, xs + ys) == Drained(Drained(w, xs), ys)
    decreases |xs|
  {
    if xs == [] {
      assert xs + ys == ys;
    } else {
      assert (xs + ys)[1..] == xs[1..] + ys;
      DrainedAppend(Apply(w, xs[0]), xs[1..], ys);
    }
  }

  lemma DrainedOne(w: World, xs: seq<Message>, m: Message)
    ensures Drained(w, xs + [m]) == Apply(Drained(w, xs), m)
  {
    DrainedAppend(w, xs, [m]);
    assert Drained(Apply(Drained(w, xs), m), []) == Apply(Drained(w, xs), m);
    assert [m][1..] == [];
  }

  lemma {:induction false} DrainedLoads(w: World, xs: seq<Message>, order: seq<Id>)
    ensures Drained(w, xs + Loads(order)) == Drained(w, xs).(replicas := Drained(w, xs).replicas + (set a | a in order))
    decreases |order|
  {
    if order == [] {
      assert xs + Loads(order) == xs;
      assert (set a | a in order) == {};
    } else {
      var k := |order| - 1;
      var before := order[..k];
      DrainedLoads(w, xs, before);
      assert xs + Loads(order) == (xs + Loads(before)) + [Load(order[k])];
      DrainedOne(w, xs + Loads(before), Load(order[k]));
      assert order == before + [order[k]];
      assert (set a | a in order) == (set a | a in before) + {order[k]};
    }
  }

  // ----- One step

  /** Puppets an earlier spawn of a player left in the level, besides its present one. */
  function Abandoned(sv: Server, c: Conn): set<Id> {
    set a | a in sv.actors && sv.actors[a] == c && c in sv.players && sv.players[c].puppet != Some(a)
  }

  lemma PostedView(s: State, outbox: map<Conn, seq<Message>>, c: Conn, m: Message, p: Conn)
    requires p in s.worlds && p in outbox
    ensures p in Post(outbox, c, [m])
    ensures Drained(s.worlds[p], Post(outbox, c, [m])[p])
         == if p == c then Apply(Drained(s.worlds[p], outbox[p]), m) else Drained(s.worlds[p], outbox[p])
  {
    DrainedOne(s.worlds[p], outbox[p], m);
  }

  lemma BroadcastView(w: World, outbox: map<Conn, seq<Message>>, audience: set<Conn>, m: Message, p: Conn)
    requires p in outbox
    ensures p in Broadcast(outbox, audience, m)
    ensures Drained(w, Broadcast(outbox, audience, m)[p])
         == if p in audience then Apply(Drained(w, outbox[p]), m) else Drained(w, outbox[p])
  {
    DrainedOne(w, outbox[p], m);
  }

  lemma AuthenticatedAgrees(debug: bool, s: State, c: Conn, p: Conn)
    requires Consistent(s) && c in s.worlds && p in s.worlds && Agrees(debug, s, p)
    ensures p in Authenticated(s.server, c).outbox && Agrees(debug, s.(server := Authenticated(s.server, c)), p)
  {
    hide Drained;
    if p == c {
      var w, inbox := s.worlds[c], s.server.outbox[c];
      DrainedOne(w, inbox, Settings);
      DrainedOne(w, inbox + [Settings], Settings);
      assert inbox + [Settings] + [Settings] == inbox + [Settings, Settings];
    }
  }

  lemma AuthenticatedIsConsistent(s: State, c: Conn)
    requires Consistent(s) && c in s.worlds
    ensures Consistent(s.(server := Authenticated(s.server, c)))
  {
    var t := s.(server := Authenticated(s.server, c));
    forall p <- t.server.players ensures HasPuppet(t.server, p) {
      assert p in s.server.players ==> HasPuppet(s.server, p);
    }
  }

  lemma AuthenticateKeepsSync(debug: bool, s: State, c: Conn)
    requires InSync(debug, s) && c in s.worlds
    ensures InSync(debug, Next(debug, s, Authenticate(c, true)))
  {
    AuthenticatedIsConsistent(s, c);
    forall p <- s.worlds ensures p in Authenticated(s.server, c).outbox
        && Agrees(debug, s.(server := Authenticated(s.server, c)), p) {
      assert Agrees(debug, s, p);
      AuthenticatedAgrees(debug, s, c, p);
    }
    hide Agrees, Consistent, Authenticated;
  }

  /** What the messages of a spawn do to the worlds. */
  lemma SpawnedView(debug: bool, s: State, c: Conn, id: Id, order: seq<Id>, p: Conn)
    requires Consistent(s) && Allowed(s, Spawn(c, id, order)) && c in s.server.players && p in s.worlds
    ensures p in Spawned(debug, s.server, c, id, order).outbox
    ensures var view := Drained(s.worlds[p], Spawned(debug, s.server, c, id, order).outbox[p]);
            if p == c then
              view == World(View(s, p).replicas + (if debug then {id} else {}) + OfOthers(s.server.actors, c), Some(id))
            else if p in s.server.players && s.server.players[p].inLevel then
              view == View(s, p).(replicas := View(s, p).replicas + {id})
            else
              view == View(s, p)
  {
    var w := s.worlds[p];
    var players := s.server.players[c := Player(Some(id), true)];
    var answered := Post(s.server.outbox, c, [SpawnResponse(Some(id))]);
    var audience := Audience(debug, InLevel(players), c);
    var announced := Broadcast(answered, audience, Load(id));
    assert Spawned(debug, s.server, c, id, order).outbox == Post(announced, c, Loads(order));
    EveryoneIsConnected(s);
    hide Drained, Post, Broadcast, Spawned, Consistent;
    PostedView(s, s.server.outbox, c, SpawnResponse(Some(id)), p);
    BroadcastView(w, answered, audience, Load(id), p);
    PostedLoads(w, announced, c, order, p);
    assert (set a | a in order) == OfOthers(s.server.actors, c);
  }

  lemma PostedLoads(w: World, outbox: map<Conn, seq<Message>>, c: Conn, order: seq<Id>, p: Conn)
    requires p in outbox
    ensures p in Post(outbox, c, Loads(order))
    ensures Drained(w, Post(outbox, c, Loads(order))[p])
         == if p == c then Drained(w, outbox[p]).(replicas := Drained(w, outbox[p]).replicas + (set a | a in order))
            else Drained(w, outbox[p])
  {
    DrainedLoads(w, outbox[p], order);
  }

  lemma EveryoneIsConnected(s: State)
    requires Consistent(s)
    ensures s.worlds.Keys == s.server.outbox.Keys
    ensures InLevel(s.server.players) <= s.worlds.Keys
  {
  }

  lemma SpawnedIsConsistent(debug: bool, s: State, c: Conn, id: Id, order: seq<Id>)
    requires Consistent(s) && Allowed(s, Spawn(c, id, order))
    ensures Consistent(s.(server := Spawned(debug, s.server, c, id, order)))
  {
    hide Loads, Lists;
    var t := s.(server := Spawned(debug, s.server, c, id, order));
    forall p <- t.server.players ensures HasPuppet(t.server, p) {
      assert p in s.server.players ==> HasPuppet(s.server, p);
    }
  }

  /** What a spawn adds to the puppets a client ought to show. */
  lemma SpawnedVisible(debug: bool, s: State, c: Conn, id: Id, order: seq<Id>, p: Conn)
    requires Consistent(s) && id !in s.server.actors && c in s.server.players
    ensures var sv, tv := s.server, Spawned(debug, s.server, c, id, order);
            Visible(debug, tv, p) == if p == c then
                                       Visible(debug, sv, c) + (if debug then {id} else {}) + OfOthers(sv.actors, c)
                                     else if p in sv.players && sv.players[p].inLevel then Visible(debug, sv, p) + {id}
                                     else {}
    ensures Spawned(debug, s.server, c, id, order).players == s.server.players[c := Player(Some(id), true)]
  {
    SpawnedServer(debug, s.server, c, id, order);
    OnlyInLevel(s, c);
    hide Spawned, Consistent;
    VisibleGrows(debug, s.server, c, id, Spawned(debug, s.server, c, id, order), p);
  }

  lemma SpawnedServer(debug: bool, sv: Server, c: Conn, id: Id, order: seq<Id>)
    requires c in sv.players
    ensures var tv := Spawned(debug, sv, c, id, order);
            tv.players == sv.players[c := Player(Some(id), true)] && tv.actors == sv.actors[id := c]
  {
    hide Post, Broadcast, Loads;
  }

  lemma OnlyInLevel(s: State, c: Conn)
    requires Consistent(s) && c in s.server.players
    ensures !s.server.players[c].inLevel ==> forall a <- s.server.actors :: s.server.actors[a] != c
  {
  }

  lemma VisibleGrows(debug: bool, sv: Server, c: Conn, id: Id, tv: Server, p: Conn)
    requires id !in sv.actors && c in sv.players
    requires !sv.players[c].inLevel ==> forall a <- sv.actors :: sv.actors[a] != c
    requires tv.players == sv.players[c := Player(Some(id), true)] && tv.actors == sv.actors[id := c]
    ensures Visible(debug, tv, p) == if p == c then
                                       Visible(debug, sv, c) + (if debug then {id} else {}) + OfOthers(sv.actors, c)
                                     else if p in sv.players && sv.players[p].inLevel then Visible(debug, sv, p) + {id}
                                     else {}
  {
    assert OfOthers(tv.actors, p) == if p == c then OfOthers(sv.actors, p) else OfOthers(sv.actors, p) + {id};
    assert tv.actors.Keys == sv.actors.Keys + {id};
  }

  lemma SpawnedAgrees(debug: bool, s: State, c: Conn, id: Id, order: seq<Id>, p: Conn)
    requires Consistent(s) && Allowed(s, Spawn(c, id, order)) && p in s.worlds && Agrees(debug, s, p)
    ensures p in Spawned(debug, s.server, c, id, order).outbox
    ensures Agrees(debug, s.(server := Spawned(debug, s.server, c, id, order)), p)
  {
    hide Drained, Visible;
    if c in s.server.players {
      hide Spawned;
      SpawnedView(debug, s, c, id, order, p);
      SpawnedVisible(debug, s, c, id, order, p);
      VisibleOutside(debug, s.server, p);
    } else {
      PostedView(s, s.server.outbox, c, SpawnResponse(None), p);
      VisibleSame(debug, s.server, Post(s.server.outbox, c, [SpawnResponse(None)]), p);
    }
  }

  lemma VisibleOutside(debug: bool, sv: Server, p: Conn)
    ensures !(p in sv.players && sv.players[p].inLevel) ==> Visible(debug, sv, p) == {}
  {
  }

  lemma VisibleSame(debug: bool, sv: Server, outbox: map<Conn, seq<Message>>, p: Conn)
    ensures Visible(debug, sv.(outbox := outbox), p) == Visible(debug, sv, p)
  {
  }

  /** A spawn, even a repeated one, keeps every client in agreement. */
  lemma SpawnKeepsSync(debug: bool, s: State, c: Conn, id: Id, order: seq<Id>)
    requires InSync(debug, s) && Allowed(s, Spawn(c, id, order))
    ensures InSync(debug, Next(debug, s, Spawn(c, id, order)))
  {
    hide Agrees, Consistent, Spawned;
    EveryoneIsConnected(s);
    SpawnedIsConsistent(debug, s, c, id, order);
    forall p <- s.worlds ensures p in Spawned(debug, s.server, c, id, order).outbox
                              && Agrees(debug, s.(server := Spawned(debug, s.server, c, id, order)), p) {
      assert Agrees(debug, s, p);
      SpawnedAgrees(debug, s, c, id, order, p);
    }
  }

  /** Whether a world shows a puppet before the messages under way makes no difference after them if one
    * of them loads or unloads it, and otherwise stays. */
  lemma {:induction false} DrainedKeeps(w: World, id: Id, inbox: seq<Message>)
    ensures var without, shown := Drained(w, inbox), Drained(w.(replicas := w.replicas + {id}), inbox);
            shown.remotePlayerId == without.remotePlayerId
            && (shown.replicas == without.replicas <==> id in w.replicas || Load(id) in inbox || Unload(id) in inbox)
    decreases |inbox|
  {
    var shown := w.(replicas := w.replicas + {id});
    if inbox == [] {
      assert id in shown.replicas;
    } else {
      var m, rest := inbox[0], inbox[1..];
      if m == Load(id) || m == Unload(id) {
        assert m in inbox;
        assert Apply(shown, m) == Apply(w, m);
      } else {
        assert Apply(shown, m) == Apply(w, m).(replicas := Apply(w, m).replicas + {id});
        assert id in Apply(w, m).replicas <==> id in w.replicas;
        DrainedKeeps(Apply(w, m), id, rest);
        assert forall n :: n in inbox <==> n == m || n in rest;
      }
    }
  }

  /** The client misses a puppet for good: it is not created, not shown already, and nothing under way
    * loads or unloads it. */
  predicate Misses(s: State, e: Event)
    requires e.Deliver? && Allowed(s, e)
  {
    var inbox := s.server.outbox[e.c];
    inbox[0].Load? && !e.created
    && var id := inbox[0].id;
       id !in s.worlds[e.c].replicas && Load(id) !in inbox[1..] && Unload(id) !in inbox[1..]
  }

  lemma DeliveredView(debug: bool, s: State, e: Event)
    requires Consistent(s) && e.Deliver? && Allowed(s, e)
    ensures var t := Next(debug, s, e);
            e.c in t.worlds && e.c in t.server.outbox
            && View(t, e.c).remotePlayerId == View(s, e.c).remotePlayerId
            && (View(t, e.c).replicas == View(s, e.c).replicas <==> !Misses(s, e))
  {
    var w, inbox := s.worlds[e.c], s.server.outbox[e.c];
    if inbox[0].Load? && !e.created {
      DrainedKeeps(w, inbox[0].id, inbox[1..]);
    }
  }

  /** A delivery keeps every client in agreement exactly when its client does not miss a puppet by it. */
  lemma DeliverKeepsSyncIff(debug: bool, s: State, e: Event)
    requires InSync(debug, s) && e.Deliver? && Allowed(s, e)
    ensures InSync(debug, Next(debug, s, e)) <==> !Misses(s, e)
  {
    var t := Next(debug, s, e);
    assert Agrees(debug, s, e.c);
    DeliveredView(debug, s, e);
    DeliverIsConsistent(debug, s, e);
    assert Visible(debug, t.server, e.c) == Visible(debug, s.server, e.c);
    hide Misses, Drained, Visible;
    assert Agrees(debug, t, e.c) <==> !Misses(s, e);
    forall p <- t.worlds | p != e.c ensures Agrees(debug, t, p) {
      assert Agrees(debug, s, p);
      VisibleSame(debug, s.server, t.server.outbox, p);
    }
  }

  lemma DeliverIsConsistent(debug: bool, s: State, e: Event)
    requires Consistent(s) && e.Deliver? && Allowed(s, e)
    ensures Consistent(Next(debug, s, e))
  {
    hide Handled;
    var t := Next(debug, s, e);
    forall p <- t.server.players ensures HasPuppet(t.server, p) {
      assert HasPuppet(s.server, p);
    }
  }

  /** What the messages of a disconnection do to the worlds. */
  lemma ClosedView(debug: bool, s: State, c: Conn, p: Conn)
    requires Consistent(s) && c in s.worlds && p in s.worlds && p != c
    ensures p in Closed(debug, s.server, c).outbox
    ensures var view := Drained(s.worlds[p], Closed(debug, s.server, c).outbox[p]);
            var gone := if c in s.server.players && p in s.server.players then s.server.players[c].puppet else None;
            view == match gone
                    case None => View(s, p)
                    case Some(id) => View(s, p).(replicas := View(s, p).replicas - {id})
  {
    hide Drained;
    if c in s.server.players && s.server.players[c].puppet.Some? {
      BroadcastView(s.worlds[p], s.server.outbox - {c}, Audience(debug, s.server.players.Keys, c),
                    Unload(s.server.players[c].puppet.value), p);
    }
  }

  /** A closed connection takes its player and every actor of that player along. */
  lemma ClosedServer(debug: bool, s: State, c: Conn)
    requires Consistent(s) && c in s.worlds
    ensures var sv, tv := s.server, Closed(debug, s.server, c);
            && tv.players == sv.players - {c} && tv.outbox.Keys == sv.outbox.Keys - {c}
            && (forall a :: a in tv.actors <==> a in sv.actors && sv.actors[a] != c)
            && (forall a <- tv.actors :: tv.actors[a] == sv.actors[a])
  {
    var sv := s.server;
    if c in sv.players {
      assert HasPuppet(sv, c);
    } else {
      assert sv.players - {c} == sv.players;
    }
  }

  lemma ClosedIsConsistent(debug: bool, s: State, c: Conn)
    requires Consistent(s) && c in s.worlds
    ensures Consistent(State(Closed(debug, s.server, c), s.worlds - {c}))
  {
    var sv, tv := s.server, Closed(debug, s.server, c);
    ClosedServer(debug, s, c);
    hide Closed;
    forall p <- tv.players ensures HasPuppet(tv, p) {
      assert HasPuppet(sv, p);
    }
  }

  lemma ClosedAgreesIff(debug: bool, s: State, c: Conn, p: Conn)
    requires Consistent(s) && c in s.worlds && p in s.worlds && p != c && Agrees(debug, s, p)
    ensures p in Closed(debug, s.server, c).outbox
    ensures Agrees(debug, State(Closed(debug, s.server, c), s.worlds - {c}), p)
       <==> Abandoned(s.server, c) == {} || p !in InLevel(s.server.players)
  {
    hide Drained, Closed;
    var sv, t := s.server, State(Closed(debug, s.server, c), s.worlds - {c});
    ClosedServer(debug, s, c);
    ClosedView(debug, s, c, p);
    if p in InLevel(sv.players) {
      LeaverHasPuppet(s, c);
      hide Consistent;
      assert Visible(debug, t.server, p) == Visible(debug, sv, p) - (set a | a in sv.actors && sv.actors[a] == c);
      if a :| a in Abandoned(sv, c) {
        assert a in View(t, p).replicas && a !in Visible(debug, t.server, p);
      }
    }
  }

  lemma LeaverHasPuppet(s: State, c: Conn)
    requires Consistent(s)
    ensures c in s.server.players ==> HasPuppet(s.server, c)
    ensures c !in s.server.players ==> forall a <- s.server.actors :: s.server.actors[a] != c
  {
  }

  /** A disconnection keeps every client in agreement exactly when the player leaves no abandoned
    * puppet behind, or nobody else is in the level to see it. */
  lemma DisconnectKeepsSyncIff(debug: bool, s: State, c: Conn)
    requires InSync(debug, s) && c in s.worlds
    ensures InSync(debug, State(Closed(debug, s.server, c), s.worlds - {c}))
       <==> Abandoned(s.server, c) == {} || InLevel(s.server.players) <= {c}
  {
    hide Agrees, Closed, Consistent, Abandoned;
    ClosedServer(debug, s, c);
    var t := State(Closed(debug, s.server, c), s.worlds - {c});
    EveryoneIsConnected(s);
    ClosedIsConsistent(debug, s, c);
    forall p <- t.worlds ensures p in t.server.outbox
                              && (Agrees(debug, t, p)
                                  <==> Abandoned(s.server, c) == {} || p !in InLevel(s.server.players)) {
      assert Agrees(debug, s, p);
      ClosedAgreesIff(debug, s, c, p);
    }
  }

  // ----- Runs

  predicate Legal(debug: bool, s: State, events: seq<Event>)
    decreases |events|
  {
    events == [] || (Allowed(s, events[0]) && Legal(debug, Next(debug, s, events[0]), events[1..]))
  }

  function Run(debug: bool, s: State, events: seq<Event>): State
    requires Legal(debug, s, events)
    decreases |events|
  {
    if events == [] then s else Run(debug, Next(debug, s, events[0]), events[1..])
  }

  predicate Closes(e: Event) {
    e.Disconnect? || (e.Authenticate? && !e.protocolsMatch)
  }

  /** An event after which a client shows puppets that are gone, or misses one that is there. */
  predicate Strands(s: State, e: Event)
    requires Allowed(s, e)
  {
    (Closes(e) && Abandoned(s.server, e.c) != {} && !(InLevel(s.server.players) <= {e.c}))
    || (e.Deliver? && Misses(s, e))
  }

  predicate NeverStrands(debug: bool, s: State, events: seq<Event>)
    requires Legal(debug, s, events)
    decreases |events|
  {
    events == [] || (!Strands(s, events[0]) && NeverStrands(debug, Next(debug, s, events[0]), events[1..]))
  }

  /** Each event keeps agreement exactly when no client comes to show too much or too little by it. */
  lemma NextKeepsSyncIff(debug: bool, s: State, e: Event)
    requires InSync(debug, s) && Allowed(s, e)
    ensures InSync(debug, Next(debug, s, e)) <==> !Strands(s, e)
  {
    hide InSync, Abandoned;
    match e
    case Connect(c, last) =>
      ConnectKeepsSync(debug, s, c, last);
    case Authenticate(c, true) =>
      AuthenticateKeepsSync(debug, s, c);
    case Authenticate(c, false) =>
      DisconnectKeepsSyncIff(debug, s, c);
    case Spawn(c, id, order) =>
      SpawnKeepsSync(debug, s, c, id, order);
    case Disconnect(c) =>
      DisconnectKeepsSyncIff(debug, s, c);
    case Deliver(c, _) =>
      DeliverKeepsSyncIff(debug, s, e);
  }

  lemma ConnectKeepsSync(debug: bool, s: State, c: Conn, last: Option<Id>)
    requires InSync(debug, s) && c !in s.worlds
    ensures InSync(debug, Next(debug, s, Connect(c, last)))
  {
    var t := Next(debug, s, Connect(c, last));
    forall p <- t.server.players ensures HasPuppet(t.server, p) {
      assert HasPuppet(s.server, p);
    }
    forall p <- t.worlds ensures Agrees(debug, t, p) {
      assert p != c ==> Agrees(debug, s, p);
    }
  }

  /** Over every interleaving of connections, authentications, spawns, disconnections and deliveries, every
    * client's world, once its queue has drained, shows exactly the others' puppets in the level. */
  lemma {:induction false} RunKeepsSync(debug: bool, s: State, events: seq<Event>)
    requires InSync(debug, s) && Legal(debug, s, events) && NeverStrands(debug, s, events)
    ensures InSync(debug, Run(debug, s, events))
    decreases |events|
  {
    hide InSync, Allowed, Strands;
    if events != [] {
      NextKeepsSyncIff(debug, s, events[0]);
      RunKeepsSync(debug, Next(debug, s, events[0]), events[1..]);
    }
  }

  // ----- One spawn per connection, and every puppet created

  predicate Creates(events: seq<Event>) {
    forall e <- events :: e.Deliver? ==> e.created
  }

  predicate SpawnsOnce(debug: bool, s: State, events: seq<Event>)
    requires Legal(debug, s, events)
    decreases |events|
  {
    events == []
    || (&& (events[0].Spawn? && events[0].c in s.server.players ==> s.server.players[events[0].c].puppet.None?)
        && SpawnsOnce(debug, Next(debug, s, events[0]), events[1..]))
  }

  /** Every actor is its player's present puppet. */
  predicate OnePuppetEach(sv: Server) {
    forall a <- sv.actors :: sv.actors[a] in sv.players && sv.players[sv.actors[a]].puppet == Some(a)
  }

  lemma NextKeepsOnePuppet(debug: bool, s: State, e: Event)
    requires Consistent(s) && OnePuppetEach(s.server) && Allowed(s, e)
    requires e.Spawn? && e.c in s.server.players ==> s.server.players[e.c].puppet.None?
    requires e.Deliver? ==> e.created
    ensures OnePuppetEach(Next(debug, s, e).server) && !Strands(s, e)
  {
    hide Drained, Lists, Loads, Post, Broadcast;
  }

  lemma {:induction false} SpawningOnceNeverStrands(debug: bool, s: State, events: seq<Event>)
    requires InSync(debug, s) && OnePuppetEach(s.server)
    requires Legal(debug, s, events) && SpawnsOnce(debug, s, events) && Creates(events)
    ensures NeverStrands(debug, s, events)
    ensures OnePuppetEach(Run(debug, s, events).server)
    decreases |events|
  {
    hide Agrees, Allowed, Strands, OnePuppetEach, Next, Consistent;
    if events != [] {
      NextKeepsOnePuppet(debug, s, events[0]);
      NextKeepsSyncIff(debug, s, events[0]);
      SpawningOnceNeverStrands(debug, Next(debug, s, events[0]), events[1..]);
    }
  }

  const START := State(Server(map[], map[], map[]), map[])

  /** The puppet of every player in the level. */
  function Puppets(players: map<Conn, Player>, but: Conn): set<Id> {
    set p | p in players && p != but && players[p].puppet.Some? :: players[p].puppet.value
  }

  /** From an empty server, with one spawn per connection and every puppet created, a release build's clients drain to
    * exactly the puppets of the other spawned players: never their own, and none at all before they have spawned.
    * A spawned client takes its own puppet for its character. */
  lemma ClientsShowTheOthers(events: seq<Event>, c: Conn)
    requires Legal(false, START, events) && SpawnsOnce(false, START, events) && Creates(events)
    requires c in Run(false, START, events).worlds
    ensures var t := Run(false, START, events);
            var players := t.server.players;
            && c in t.server.outbox
            && View(t, c).replicas == (if c in players && players[c].inLevel then Puppets(players, c) else {})
            && (c in players && players[c].inLevel ==>
                  players[c].puppet.Some?
                  && View(t, c).remotePlayerId == players[c].puppet
                  && players[c].puppet.value !in View(t, c).replicas)
  {
    var t := Run(false, START, events);
    SpawningOnceNeverStrands(false, START, events);
    RunKeepsSync(false, START, events);
    hide Run, Legal, SpawnsOnce, NeverStrands, Drained;
    assert Agrees(false, t, c);
    PuppetsAreActors(t, c);
  }

  lemma PuppetsAreActors(t: State, c: Conn)
    requires Consistent(t) && OnePuppetEach(t.server)
    ensures Puppets(t.server.players, c) == OfOthers(t.server.actors, c)
    ensures c in t.server.players && t.server.players[c].inLevel ==>
              t.server.players[c].puppet.Some? && t.server.players[c].puppet.value !in OfOthers(t.server.actors, c)
  {
    var sv := t.server;
    forall p <- sv.players ensures HasPuppet(sv, p) {
    }
    forall a <- OfOthers(sv.actors, c) ensures a in Puppets(sv.players, c) {
      assert sv.players[sv.actors[a]].puppet == Some(a);
    }
  }

  // ----- A second spawn on one connection

  /** A player who spawns again and then leaves strands its first puppet at everyone else in the level. */
  lemma SpawningTwiceStrands(debug: bool, s: State, c: Conn, p: Conn, id: Id, order: seq<Id>)
    requires InSync(debug, s) && Allowed(s, Spawn(c, id, order))
    requires c in InLevel(s.server.players) && p in InLevel(s.server.players) && p != c
    ensures Legal(debug, s, [Spawn(c, id, order), Disconnect(c)])
    ensures !InSync(debug, Run(debug, s, [Spawn(c, id, order), Disconnect(c)]))
  {
    hide Drained, Loads, Lists, Post, Broadcast, Agrees;
    var t := Next(debug, s, Spawn(c, id, order));
    NextKeepsSyncIff(debug, s, Spawn(c, id, order));
    assert HasPuppet(s.server, c);
    var first := s.server.players[c].puppet.value;
    assert first in Abandoned(t.server, c) && p in InLevel(t.server.players);
    NextKeepsSyncIff(debug, t, Disconnect(c));
    var events := [Spawn(c, id, order), Disconnect(c)];
    assert events[1..] == [Disconnect(c)] && events[1..][1..] == [];
    assert Legal(debug, t, events[1..]);
    assert Run(debug, t, events[1..]) == Next(debug, t, Disconnect(c));
  }

  // ----- A puppet that is not created

  /** A player who enters the level is missed by a client that has nothing else under way and does not create the
    * puppet. */
  lemma UncreatedIsMissed(debug: bool, s: State, c: Conn, p: Conn, id: Id, order: seq<Id>)
    requires InSync(debug, s) && Allowed(s, Spawn(p, id, order)) && p in s.server.players
    requires c in InLevel(s.server.players) && c != p && c in s.worlds && s.server.outbox[c] == []
    ensures Legal(debug, s, [Spawn(p, id, order), Deliver(c, false)])
    ensures !InSync(debug, Run(debug, s, [Spawn(p, id, order), Deliver(c, false)]))
  {
    hide Drained, Loads, Lists, Post, Broadcast, Agrees, Spawned;
    var t := Next(debug, s, Spawn(p, id, order));
    NextKeepsSyncIff(debug, s, Spawn(p, id, order));
    SpawnReaches(debug, s, c, p, id, order);
    NotShownYet(debug, s, c, id);
    NextKeepsSyncIff(debug, t, Deliver(c, false));
    var events := [Spawn(p, id, order), Deliver(c, false)];
    assert events[1..] == [Deliver(c, false)] && events[1..][1..] == [];
    assert Legal(debug, t, events[1..]);
    assert Run(debug, t, events[1..]) == Next(debug, t, Deliver(c, false));
  }

  lemma SpawnReaches(debug: bool, s: State, c: Conn, p: Conn, id: Id, order: seq<Id>)
    requires p in s.server.players && c in InLevel(s.server.players) && c != p
    requires c in s.server.outbox && s.server.outbox[c] == []
    ensures var sent := Spawned(debug, s.server, p, id, order).outbox;
            c in sent && sent[c] == [Load(id)]
  {
  }

  lemma NotShownYet(debug: bool, s: State, c: Conn, id: Id)
    requires InSync(debug, s) && c in s.worlds && id !in s.server.actors && s.server.outbox[c] == []
    ensures id !in s.worlds[c].replicas
  {
    assert Agrees(debug, s, c);
  }
}
