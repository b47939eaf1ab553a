/** What each client hears: the messages of every event, by who receives them, and what a client's world
  * is made of after any run. */
module Hearing {

  import opened Options
  import opened Replication

  // ----- One event

  /** A player is put into the level with a new puppet. */
  predicate Enters(s: State, e: Event) {
    e.Spawn? && e.c in s.server.players
  }

  predicate Joins(e: Event) {
    e.Authenticate? && e.protocolsMatch
  }

  /** What an event makes the server send to one client. */
  function Told(debug: bool, s: State, e: Event, c: Conn): seq<Message> {
    var players := s.server.players;
    if Joins(e) && e.c == c then [Settings, Settings]
    else if e.Spawn? && e.c == c && c !in players then [SpawnResponse(None)]
    else if e.Spawn? && e.c == c && debug then [SpawnResponse(Some(e.id)), Load(e.id)] + Loads(e.order)
    else if e.Spawn? && e.c == c then [SpawnResponse(Some(e.id))] + Loads(e.order)
    else if Enters(s, e) && c in players && players[c].inLevel then [Load(e.id)]
    else if Closes(e) && e.c in players && players[e.c].puppet.Some? && c in players then
      [Unload(players[e.c].puppet.value)]
    else []
  }

  predicate Reaches(e: Event, c: Conn) {
    e.Deliver? && e.c == c
  }

  /** Every event adds to a client's queue exactly what that client is told; only a delivery takes from it, and
    * from the front. */
  lemma QueueAfter(debug: bool, s: State, e: Event, c: Conn)
    requires Consistent(s) && Allowed(s, e)
    requires c in s.worlds && c in Next(debug, s, e).worlds
    ensures var inbox, rest := s.server.outbox, Next(debug, s, e).server.outbox;
            && c in inbox && c in rest
            && (Reaches(e, c) ==> inbox[c] == [inbox[c][0]] + rest[c])
            && (!Reaches(e, c) ==> rest[c] == inbox[c] + Told(debug, s, e, c))
  {
    match e
    case Connect(_, _) =>
    case Deliver(_, _) =>
    case Authenticate(a, false) =>
      ClosedQueue(debug, s, a, c);
    case Disconnect(a) =>
      ClosedQueue(debug, s, a, c);
    case Authenticate(_, true) =>
    case Spawn(_, _, _) =>
      SpawnedQueue(debug, s, e, c);
  }

  lemma ClosedQueue(debug: bool, s: State, a: Conn, c: Conn)
    requires Consistent(s) && a in s.worlds && c in s.worlds && a != c
    ensures c in Closed(debug, s.server, a).outbox
    ensures Closed(debug, s.server, a).outbox[c] == s.server.outbox[c] + Told(debug, s, Disconnect(a), c)
  {
  }

  lemma SpawnedQueue(debug: bool, s: State, e: Event, c: Conn)
    requires Consistent(s) && Allowed(s, e) && e.Spawn? && c in s.worlds
    ensures var rest := Spawned(debug, s.server, e.c, e.id, e.order).outbox;
            c in rest && rest[c] == s.server.outbox[c] + Told(debug, s, e, c)
  {
    var inbox, answer := s.server.outbox[c], [SpawnResponse(Some(e.id))];
    if e.c == c && c in s.server.players {
      assert inbox + answer + [Load(e.id)] == inbox + [SpawnResponse(Some(e.id)), Load(e.id)];
      assert inbox + answer + [Load(e.id)] + Loads(e.order)
          == inbox + ([SpawnResponse(Some(e.id)), Load(e.id)] + Loads(e.order));
      assert inbox + answer + Loads(e.order) == inbox + (answer + Loads(e.order));
    }
  }

  /** Who is connected: everyone who has connected and not been closed since. */
  lemma WorldsAfter(debug: bool, s: State, e: Event, p: Conn)
    requires Allowed(s, e)
    ensures p in Next(debug, s, e).worlds
       <==> (p in s.worlds || (e.Connect? && e.c == p)) && !(Closes(e) && e.c == p)
  {
  }

  /** Who is a player, and with which puppet. */
  lemma PlayersAfter(debug: bool, s: State, e: Event, p: Conn)
    requires Consistent(s) && Allowed(s, e)
    ensures var before, after := s.server.players, Next(debug, s, e).server.players;
            && (p in after <==> (p in before || (Joins(e) && e.c == p)) && !(Closes(e) && e.c == p))
            && (p in after ==>
                  after[p] == if Enters(s, e) && e.c == p then Player(Some(e.id), true)
                              else if p in before then before[p] else Player(None, false))
  {
    hide Post, Broadcast, Loads, Lists, WithoutChildren;
  }

  /** Which puppets are in the level, and whose they are. */
  lemma ActorsAfter(debug: bool, s: State, e: Event, a: Id)
    requires Consistent(s) && Allowed(s, e)
    ensures var before, after := s.server.actors, Next(debug, s, e).server.actors;
            && (a in after <==> (a in before && !(Closes(e) && before[a] == e.c)) || (Enters(s, e) && e.id == a))
            && (a in after ==> after[a] == if Enters(s, e) && e.id == a then e.c else before[a])
  {
    if Closes(e) {
      ClosedServer(debug, s, e.c);
    }
  }

  lemma NextIsConsistent(debug: bool, s: State, e: Event)
    requires Consistent(s) && Allowed(s, e)
    ensures Consistent(Next(debug, s, e))
  {
    match e
    case Connect(_, _) =>
      forall p <- s.server.players ensures HasPuppet(Next(debug, s, e).server, p) {
        assert HasPuppet(s.server, p);
      }
    case Authenticate(c, true) =>
      AuthenticatedIsConsistent(s, c);
    case Authenticate(c, false) =>
      ClosedIsConsistent(debug, s, c);
    case Disconnect(c) =>
      ClosedIsConsistent(debug, s, c);
    case Spawn(c, id, order) =>
      SpawnedIsConsistent(debug, s, c, id, order);
    case Deliver(_, _) =>
      DeliverIsConsistent(debug, s, e);
  }

  // ----- Runs

  /** A message that has arrived, and whether the engine created the puppet it names. */
  datatype Delivery = Delivery(message: Message, created: bool)

  /** A connection since it was opened: the character of the session before, what it was told, and what arrived. */
  datatype Session = Session(last: Option<Id>, told: seq<Message>, taken: seq<Delivery>)

  const FRESH := Session(None, [], [])

  function Continued(debug: bool, s: State, e: Event, c: Conn, x: Session): Session
    requires Allowed(s, e)
  {
    if e.Connect? && e.c == c then Session(e.lastPlayerId, [], [])
    else if Reaches(e, c) then x.(taken := x.taken + [Delivery(s.server.outbox[c][0], e.created)])
    else x.(told := x.told + Told(debug, s, e, c))
  }

  /** The session of a connection over a run. */
  function SessionOf(debug: bool, s: State, events: seq<Event>, c: Conn, x: Session): Session
    requires Legal(debug, s, events)
    decreases |events|
  {
    if events == [] then x
    else SessionOf(debug, Next(debug, s, events[0]), events[1..], c, Continued(debug, s, events[0], c, x))
  }

  function Messages(taken: seq<Delivery>): seq<Message> {
    seq(|taken|, i requires 0 <= i < |taken| => taken[i].message)
  }

  /** The latest word on a puppet is that it was created. */
  predicate LastCreated(taken: seq<Delivery>, id: Id) {
    exists i :: 0 <= i < |taken| && taken[i] == Delivery(Load(id), true)
                && forall j :: i < j < |taken| ==> taken[j].message != Unload(id)
  }

  predicate Names(m: Message) {
    m.SpawnResponse? && m.puppet.Some?
  }

  /** The character most recently named, in this session or before it. */
  function LastNamed(x: Session): Option<Id>
    decreases |x.taken|
  {
    if x.taken == [] then x.last
    else
      var k := |x.taken| - 1;
      if Names(x.taken[k].message) then x.taken[k].message.puppet else LastNamed(x.(taken := x.taken[..k]))
  }

  predicate NamedBefore(told: seq<Message>, i: nat)
    requires i <= |told|
  {
    exists j :: 0 <= j < i && Names(told[j])
  }

  /** No client hears of a puppet before it has been given its own. */
  predicate Introduced(told: seq<Message>) {
    forall i :: 0 <= i < |told| && told[i].Load? ==> NamedBefore(told, i)
  }

  predicate Plays(s: State, c: Conn) {
    c in s.server.players && s.server.players[c].inLevel
  }

  /** A client's world is made of what arrived, in the order in which it was told, and the rest is under way. */
  ghost predicate Faithful(s: State, c: Conn, x: Session) {
    c in s.worlds ==>
      && c in s.server.outbox
      && Messages(x.taken) + s.server.outbox[c] == x.told
      && (forall id :: id in s.worlds[c].replicas <==> LastCreated(x.taken, id))
      && s.worlds[c].remotePlayerId == LastNamed(x)
      && Introduced(x.told)
      && (c in s.server.players && s.server.players[c].inLevel <==> NamedBefore(x.told, |x.told|))
  }

  lemma LastCreatedMore(taken: seq<Delivery>, d: Delivery, id: Id)
    ensures LastCreated(taken + [d], id)
       <==> d == Delivery(Load(id), true) || (LastCreated(taken, id) && d.message != Unload(id))
  {
    var more := taken + [d];
    if d == Delivery(Load(id), true) {
      assert more[|taken|] == d;
    }
    if LastCreated(taken, id) && d.message != Unload(id) {
      var i :| 0 <= i < |taken| && taken[i] == Delivery(Load(id), true)
               && forall j :: i < j < |taken| ==> taken[j].message != Unload(id);
      assert more[i] == taken[i];
    }
    if LastCreated(more, id) && d != Delivery(Load(id), true) {
      var i :| 0 <= i < |more| && more[i] == Delivery(Load(id), true)
               && forall j :: i < j < |more| ==> more[j].message != Unload(id);
      assert taken[i] == more[i] && more[|taken|] == d;
      assert forall j :: i < j < |taken| ==> taken[j] == more[j];
    }
  }

  lemma NamedMore(told: seq<Message>, more: seq<Message>)
    ensures NamedBefore(told + more, |told + more|) <==> NamedBefore(told, |told|) || NamedBefore(more, |more|)
  {
    if NamedBefore(told, |told|) {
      var j :| 0 <= j < |told| && Names(told[j]);
      assert Names((told + more)[j]);
    }
    if NamedBefore(more, |more|) {
      var j :| 0 <= j < |more| && Names(more[j]);
      assert Names((told + more)[|told| + j]);
    }
  }

  lemma IntroducedMore(told: seq<Message>, more: seq<Message>)
    requires Introduced(told) && (NamedBefore(told, |told|) || Introduced(more))
    ensures Introduced(told + more)
  {
    var all := told + more;
    forall i | 0 <= i < |all| && all[i].Load? ensures NamedBefore(all, i) {
      if i < |told| {
        assert NamedBefore(told, i);
        var j :| 0 <= j < i && Names(told[j]);
        assert Names(all[j]);
      } else if NamedBefore(told, |told|) {
        var j :| 0 <= j < |told| && Names(told[j]);
        assert Names(all[j]);
      } else {
        assert NamedBefore(more, i - |told|);
        var j :| 0 <= j < i - |told| && Names(more[j]);
        assert Names(all[|told| + j]);
      }
    }
  }

  /** A client outside the level is told of puppets only after its own, and enters the level by that. */
  lemma ToldIsIntroduced(debug: bool, s: State, e: Event, c: Conn)
    requires Consistent(s) && Allowed(s, e) && c in s.worlds
    ensures var told := Told(debug, s, e, c);
            && (Plays(s, c) || Introduced(told))
            && (NamedBefore(told, |told|) <==> Enters(s, e) && e.c == c)
  {
    var told := Told(debug, s, e, c);
    if e.Spawn? && e.c == c {
      assert Names(told[0]) <==> c in s.server.players;
    }
  }

  lemma ArrivalKeepsFaith(debug: bool, s: State, e: Event, c: Conn, x: Session)
    requires Consistent(s) && Allowed(s, e) && Faithful(s, c, x) && Reaches(e, c)
    ensures Faithful(Next(debug, s, e), c, Continued(debug, s, e, c, x))
  {
    var y, d := Continued(debug, s, e, c, x), Delivery(s.server.outbox[c][0], e.created);
    QueueAfter(debug, s, e, c);
    PlayersAfter(debug, s, e, c);
    assert y.taken[..|x.taken|] == x.taken && x.(taken := x.taken) == x;
    assert Messages(y.taken) == Messages(x.taken) + [d.message];
    forall id ensures id in Next(debug, s, e).worlds[c].replicas <==> LastCreated(y.taken, id) {
      LastCreatedMore(x.taken, d, id);
      assert id in s.worlds[c].replicas <==> LastCreated(x.taken, id);
    }
  }

  /** A client enters the level by a spawn only, and stays in it. */
  lemma LevelAfter(debug: bool, s: State, e: Event, c: Conn)
    requires Consistent(s) && Allowed(s, e) && c in s.worlds && c in Next(debug, s, e).worlds
    ensures Plays(Next(debug, s, e), c) <==> Plays(s, c) || (Enters(s, e) && e.c == c)
  {
    PlayersAfter(debug, s, e, c);
    WorldsAfter(debug, s, e, c);
    hide Next, Consistent;
  }

  lemma WorldStays(debug: bool, s: State, e: Event, c: Conn)
    requires Allowed(s, e) && !Reaches(e, c) && c in s.worlds && c in Next(debug, s, e).worlds
    ensures Next(debug, s, e).worlds[c] == s.worlds[c]
  {
  }

  lemma {:induction false} NamedLastStays(x: Session, told: seq<Message>)
    ensures LastNamed(x.(told := x.told + told)) == LastNamed(x)
    decreases |x.taken|
  {
    if x.taken != [] {
      NamedLastStays(x.(taken := x.taken[..|x.taken| - 1]), told);
    }
  }

  lemma ToldIsAdded(debug: bool, s: State, e: Event, c: Conn, x: Session)
    requires Consistent(s) && Allowed(s, e) && !Reaches(e, c)
    requires c in s.worlds && c in Next(debug, s, e).worlds
    ensures var t, told := Next(debug, s, e), Told(debug, s, e, c);
            && c in s.server.outbox && c in t.server.outbox && t.server.outbox[c] == s.server.outbox[c] + told
            && t.worlds[c] == s.worlds[c]
            && Continued(debug, s, e, c, x) == x.(told := x.told + told)
            && (Plays(s, c) || Introduced(told))
            && (NamedBefore(told, |told|) <==> Enters(s, e) && e.c == c)
  {
    QueueAfter(debug, s, e, c);
    ToldIsIntroduced(debug, s, e, c);
    hide Told, Introduced, NamedBefore, Plays, Consistent;
    WorldStays(debug, s, e, c);
  }

  lemma HearingKeepsFaith(debug: bool, s: State, e: Event, c: Conn, x: Session)
    requires Consistent(s) && Allowed(s, e) && Faithful(s, c, x) && !Reaches(e, c)
    requires c in s.worlds && c in Next(debug, s, e).worlds
    ensures Faithful(Next(debug, s, e), c, Continued(debug, s, e, c, x))
  {
    hide Next, Consistent, Allowed, Told, Introduced, NamedBefore, LastCreated, LastNamed, Messages;
    hide Continued, Reaches, Enters;
    var told, y := Told(debug, s, e, c), Continued(debug, s, e, c, x);
    ToldIsAdded(debug, s, e, c, x);
    LevelAfter(debug, s, e, c);
    NamedMore(x.told, told);
    IntroducedMore(x.told, told);
    NamedLastStays(x, told);
    assert Messages(x.taken) + (s.server.outbox[c] + told) == x.told + told;
  }

  lemma OpeningKeepsFaith(debug: bool, s: State, e: Event, c: Conn, x: Session)
    requires Consistent(s) && Allowed(s, e) && e.Connect? && e.c == c
    ensures Faithful(Next(debug, s, e), c, Continued(debug, s, e, c, x))
  {
  }

  lemma EventKeepsFaith(debug: bool, s: State, e: Event, c: Conn, x: Session)
    requires Consistent(s) && Allowed(s, e) && Faithful(s, c, x)
    ensures Faithful(Next(debug, s, e), c, Continued(debug, s, e, c, x))
  {
    hide Told, Messages, Introduced, LastCreated, LastNamed, NamedBefore, Continued;
    WorldsAfter(debug, s, e, c);
    hide Next, Consistent;
    if Reaches(e, c) {
      ArrivalKeepsFaith(debug, s, e, c, x);
    } else if e.Connect? && e.c == c {
      OpeningKeepsFaith(debug, s, e, c, x);
    } else if c in s.worlds && c in Next(debug, s, e).worlds {
      HearingKeepsFaith(debug, s, e, c, x);
    }
  }

  lemma {:induction false} RunKeepsFaith(debug: bool, s: State, events: seq<Event>, c: Conn, x: Session)
    requires Consistent(s) && Legal(debug, s, events) && Faithful(s, c, x)
    ensures Faithful(Run(debug, s, events), c, SessionOf(debug, s, events, c, x))
    decreases |events|
  {
    hide Consistent, Allowed, Faithful, Next, Continued;
    if events != [] {
      EventKeepsFaith(debug, s, events[0], c, x);
      NextIsConsistent(debug, s, events[0]);
      RunKeepsFaith(debug, Next(debug, s, events[0]), events[1..], c, Continued(debug, s, events[0], c, x));
    }
  }

  /** From an empty server, whatever happens: what a client was told since it connected is what has arrived followed
    * by what is under way, nothing lost, repeated or reordered; it shows exactly the puppets whose latest word is
    * that they were created; its character is the one named last; and no puppet is mentioned to it before its own
    * has been named. */
  lemma ClientsHearEverything(debug: bool, events: seq<Event>, c: Conn)
    requires Legal(debug, START, events) && c in Run(debug, START, events).worlds
    ensures var t, x := Run(debug, START, events), SessionOf(debug, START, events, c, FRESH);
            && c in t.server.outbox
            && Messages(x.taken) + t.server.outbox[c] == x.told
            && (forall id :: id in t.worlds[c].replicas <==> LastCreated(x.taken, id))
            && t.worlds[c].remotePlayerId == LastNamed(x)
            && Introduced(x.told)
  {
    hide Run, SessionOf, Legal;
    RunKeepsFaith(debug, START, events, c, FRESH);
  }
}
