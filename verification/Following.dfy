/** What the cells collected at an entity's moves are worth to a client that loads and unloads them,
  * while moves, arrivals and departures make and erase cells. */
module Following {

  import opened Grid

  datatype Step =
    | Enter(e: Entity, at: Pos)
    | Leave(e: Entity)
    | Move(e: Entity, to: Pos)

  /** An entity enters once, and only a placed entity moves. */
  predicate Possible(g: Grid, s: Step) {
    match s
    case Enter(e, at) => e !in g.placement && Fits(at)
    case Leave(_) => true
    case Move(e, to) => e in g.placement && Fits(to)
  }

  /** A move gets the cell to move to, made if there is none, and then transfers. */
  ghost function Next(g: Grid, s: Step): (h: Grid)
    requires Clean(g) && Possible(g, s)
    ensures Clean(h)
    ensures h.placement == match s
                           case Enter(e, at) => g.placement[e := at]
                           case Leave(e) => g.placement - {e}
                           case Move(e, to) => g.placement[e := to]
  {
    match s
    case Enter(e, at) =>
      EnteredIsCleanIff(g, e, at);
      Entered(g, e, at)
    case Leave(e) =>
      LeftIsClean(g, e);
      Left(g, e)
    case Move(e, to) =>
      MadeIsSound(g, to);
      MovedIsClean(Made(g, to), e, to);
      Moved(Made(g, to), e, to)
  }

  /** A client loads and unloads what the moves of its own entity collect. */
  function Viewed(g: Grid, view: set<Pos>, f: Entity, s: Step): set<Pos>
    requires f in g.placement
  {
    if s.Move? && s.e == f then
      var existing := Made(g, s.to).lists.Keys;
      view - ToLoad(existing, s.to, g.placement[f]) + ToLoad(existing, g.placement[f], s.to)
    else
      view
  }

  /** A run of steps in which an entity stays in the level. */
  ghost predicate Stays(g: Grid, f: Entity, steps: seq<Step>)
    requires Clean(g)
    decreases |steps|
  {
    f in g.placement
    && (steps != [] ==> Possible(g, steps[0]) && steps[0] != Leave(f) && Stays(Next(g, steps[0]), f, steps[1..]))
  }

  ghost function Run(g: Grid, f: Entity, steps: seq<Step>): (h: Grid)
    requires Clean(g) && Stays(g, f, steps)
    ensures f in h.placement
    decreases |steps|
  {
    if steps == [] then g else Run(Next(g, steps[0]), f, steps[1..])
  }

  ghost function ViewAfter(g: Grid, view: set<Pos>, f: Entity, steps: seq<Step>): set<Pos>
    requires Clean(g) && Stays(g, f, steps)
    decreases |steps|
  {
    if steps == [] then view else ViewAfter(Next(g, steps[0]), Viewed(g, view, f, steps[0]), f, steps[1..])
  }

  /** A client is wrong about a position: it holds a cell that is not there or not in its window, or
    * lacks one that is. */
  predicate Wrong(g: Grid, view: set<Pos>, f: Entity, p: Pos)
    requires f in g.placement
  {
    p in view <==> p !in Around(g.lists.Keys, g.placement[f])
  }

  // ----- One step

  /** An entity goes to where no cell is. */
  predicate Makes(g: Grid, s: Step, p: Pos) {
    p !in g.lists && ((s.Enter? && s.at == p) || (s.Move? && s.to == p))
  }

  /** An entity goes away that is alone in its cell. */
  predicate Erases(g: Grid, s: Step, p: Pos) {
    p in g.lists && g.lists[p] == [s.e] && (s.Leave? || (s.Move? && s.to != p))
  }

  predicate Changes(g: Grid, s: Step, p: Pos) {
    Makes(g, s, p) || Erases(g, s, p)
  }

  /** These are all the ways in which a cell comes and goes: there is one after a step exactly when there was one that
    * the step does not erase, or there was none and the step makes it. */
  lemma ChangesIff(g: Grid, s: Step, p: Pos)
    requires Clean(g) && Possible(g, s)
    ensures p in Next(g, s).lists <==> if p in g.lists then !Erases(g, s, p) else Makes(g, s, p)
  {
    match s
    case Enter(e, at) =>
    case Leave(e) => LeaveChangesIff(g, e, p);
    case Move(e, to) => MoveChangesIff(g, e, to, p);
  }

  lemma EmptyWithoutIff(xs: seq<Entity>, e: Entity)
    requires e in xs
    ensures Without(xs, e) == [] <==> xs == [e]
  {
    assert |Without(xs, e)| == |xs| - 1;
  }

  lemma LeaveChangesIff(g: Grid, e: Entity, p: Pos)
    requires Clean(g)
    ensures p in Next(g, Leave(e)).lists <==> p in g.lists && !Erases(g, Leave(e), p)
  {
    if e in g.placement {
      var from := g.placement[e];
      TakenIsSound(g, e, from);
      EmptyWithoutIff(g.lists[from], e);
      hide Without;
    }
  }

  lemma MoveChangesIff(g: Grid, e: Entity, to: Pos, p: Pos)
    requires Clean(g) && Fits(to) && e in g.placement
    ensures p in Next(g, Move(e, to)).lists
            <==> if p in g.lists then !Erases(g, Move(e, to), p) else Makes(g, Move(e, to), p)
  {
    var m := Made(g, to);
    MadeIsSound(g, to);
    TakenIsSound(g, e, g.placement[e]);
    AloneStandsThere(g, e, p);
    assert Next(g, Move(e, to)) == Moved(m, e, to);
    assert p in g.lists ==> p in m.lists && m.lists[p] == g.lists[p];
    assert p !in g.lists ==> (p in m.lists <==> p == to);
    hide Next, Moved, Sound, NoneEmpty, Fits, Made;
    MovedErasesIff(m, e, to, p);
  }

  lemma MovedErasesIff(g: Grid, e: Entity, to: Pos, p: Pos)
    requires Sound(g) && e in g.placement && to in g.lists
    ensures p in Moved(g, e, to).lists <==> p in g.lists && !(p == g.placement[e] != to && g.lists[p] == [e])
  {
    var from := g.placement[e];
    TakenIsSound(g, e, from);
    EmptyWithoutIff(g.lists[from], e);
    hide Without, Sound;
  }

  lemma AloneStandsThere(g: Grid, e: Entity, p: Pos)
    requires Sound(g)
    ensures p in g.lists && g.lists[p] == [e] ==> e in g.placement && g.placement[e] == p
  {
    assert p in g.lists && g.lists[p] == [e] ==> e in g.lists[p];
  }

  /** The entity's own move brings an existing cell into its window, or out of it. */
  predicate Crosses(g: Grid, f: Entity, s: Step, p: Pos)
    requires f in g.placement
  {
    s.Move? && s.e == f && p in Made(g, s.to).lists
        && (Near(g.placement[f], p, LOAD_RADIUS) <==> !Near(s.to, p, LOAD_RADIUS))
  }

  /** A crossing puts a client right. Otherwise it takes over its error, turned around when the cell
    * is made or erased inside the window. */
  lemma StepErrs(g: Grid, view: set<Pos>, f: Entity, s: Step, p: Pos)
    requires Clean(g) && Possible(g, s) && f in g.placement && s != Leave(f)
    ensures f in Next(g, s).placement
    ensures Wrong(Next(g, s), Viewed(g, view, f, s), f, p)
            <==> !Crosses(g, f, s, p)
                 && (Wrong(g, view, f, p) <==> !(Changes(g, s, p) && Near(g.placement[f], p, LOAD_RADIUS)))
  {
    if s.Move? && s.e == f {
      OwnMoveErrs(g, view, f, s.to, p);
    } else {
      ChangesIff(g, s, p);
      hide Next, Near, Changes, Clean, Possible;
    }
  }

  lemma OwnMoveErrs(g: Grid, view: set<Pos>, f: Entity, to: Pos, p: Pos)
    requires Clean(g) && Fits(to) && f in g.placement
    ensures var s := Move(f, to);
            Wrong(Next(g, s), Viewed(g, view, f, s), f, p)
            <==> !Crosses(g, f, s, p)
                 && (Wrong(g, view, f, p) <==> !(Changes(g, s, p) && Near(g.placement[f], p, LOAD_RADIUS)))
  {
    ChangesIff(g, Move(f, to), p);
    MoveKeeps(g, f, to);
    NearItself(to);
    NearItself(g.placement[f]);
    ViewedAt(g, view, f, to, p);
    hide Next, Near, Clean, Fits, Made, Viewed, ToLoad, Changes;
  }

  lemma ViewedAt(g: Grid, view: set<Pos>, f: Entity, to: Pos, p: Pos)
    requires f in g.placement
    ensures var before, after := Near(g.placement[f], p, LOAD_RADIUS), Near(to, p, LOAD_RADIUS);
            p in Viewed(g, view, f, Move(f, to))
            <==> if p in Made(g, to).lists && before != after then after else p in view
  {
    hide Near, Made;
  }

  /** A move makes at most the cell it goes to, and erases at most the one it comes from. */
  lemma MoveKeeps(g: Grid, e: Entity, to: Pos)
    requires Clean(g) && Fits(to) && e in g.placement
    ensures var from, existing, left := g.placement[e], Made(g, to).lists.Keys, Next(g, Move(e, to)).lists.Keys;
            && existing == g.lists.Keys + {to} && from in g.lists
            && existing - {from} <= left <= existing && (from == to ==> from in left)
  {
    MadeIsSound(g, to);
    assert Next(g, Move(e, to)) == Moved(Made(g, to), e, to);
    assert Made(g, to).lists.Keys == g.lists.Keys + {to};
    hide *;
    TakenIsSound(g, e, g.placement[e]);
    MovedKeeps(Made(g, to), e, to);
  }

  lemma MovedKeeps(g: Grid, e: Entity, to: Pos)
    requires Sound(g) && e in g.placement && to in g.lists
    ensures var from := g.placement[e];
            && Moved(g, e, to).lists.Keys <= g.lists.Keys
            && Moved(g, e, to).lists.Keys >= g.lists.Keys - {from}
            && (from == to ==> from in Moved(g, e, to).lists)
  {
    TakenIsSound(g, e, g.placement[e]);
    hide Without, Sound;
  }

  lemma NearItself(p: Pos)
    ensures Near(p, p, LOAD_RADIUS)
  {
  }

  // ----- Runs

  /** How often a cell has been made or erased inside the window since the entity last crossed it. */
  ghost function Flips(g: Grid, f: Entity, steps: seq<Step>, p: Pos, before: nat): nat
    requires Clean(g) && Stays(g, f, steps)
    decreases |steps|
  {
    if steps == [] then before else Flips(Next(g, steps[0]), f, steps[1..], p, FlipsOnce(g, f, steps[0], p, before))
  }

  ghost function FlipsOnce(g: Grid, f: Entity, s: Step, p: Pos, before: nat): nat
    requires Clean(g) && Possible(g, s) && f in g.placement
  {
    if Crosses(g, f, s, p) then 0
    else if Changes(g, s, p) && Near(g.placement[f], p, LOAD_RADIUS) then before + 1
    else before
  }

  predicate Odd(n: nat) {
    n % 2 == 1
  }

  lemma OddAlternates(n: nat)
    ensures !Odd(0) && (Odd(n + 1) <==> !Odd(n))
  {
  }

  lemma WrongIffOddOnce(g: Grid, view: set<Pos>, f: Entity, s: Step, p: Pos, before: nat)
    requires Clean(g) && Possible(g, s) && f in g.placement && s != Leave(f)
    requires Wrong(g, view, f, p) <==> Odd(before)
    ensures f in Next(g, s).placement
    ensures Wrong(Next(g, s), Viewed(g, view, f, s), f, p) <==> Odd(FlipsOnce(g, f, s, p, before))
  {
    StepErrs(g, view, f, s, p);
    OddAlternates(before);
    hide Next, Viewed, Changes, Crosses, Near, Wrong, Clean, Possible, Odd;
  }

  lemma {:induction false} WrongIffOdd(g: Grid, view: set<Pos>, f: Entity, steps: seq<Step>, p: Pos, before: nat)
    requires Clean(g) && Stays(g, f, steps)
    requires Wrong(g, view, f, p) <==> Odd(before)
    ensures Wrong(Run(g, f, steps), ViewAfter(g, view, f, steps), f, p) <==> Odd(Flips(g, f, steps, p, before))
    decreases |steps|
  {
    hide Next, Viewed, FlipsOnce, Wrong, Clean, Possible;
    if steps == [] {
    } else {
      var s := steps[0];
      WrongIffOddOnce(g, view, f, s, p, before);
      WrongIffOdd(Next(g, s), Viewed(g, view, f, s), f, steps[1..], p, FlipsOnce(g, f, s, p, before));
    }
  }

  /** After any run, a client that started right is wrong about exactly those positions whose cell was
    * made or erased an odd number of times inside the window since the entity last crossed it. */
  lemma FollowerErrsIff(g: Grid, f: Entity, steps: seq<Step>, p: Pos)
    requires Clean(g) && Stays(g, f, steps)
    ensures Wrong(Run(g, f, steps), ViewAfter(g, Around(g.lists.Keys, g.placement[f]), f, steps), f, p)
            <==> Odd(Flips(g, f, steps, p, 0))
  {
    WrongIffOdd(g, Around(g.lists.Keys, g.placement[f]), f, steps, p, 0);
  }

  /** An arrival in the window where no cell was goes unnoticed. */
  lemma ArrivalIsMissed(g: Grid, f: Entity, e: Entity, at: Pos)
    requires Clean(g) && f in g.placement && e !in g.placement && Fits(at)
    requires at !in g.lists && Near(g.placement[f], at, LOAD_RADIUS)
    ensures Stays(g, f, [Enter(e, at)])
    ensures var view := Around(g.lists.Keys, g.placement[f]);
            Wrong(Run(g, f, [Enter(e, at)]), ViewAfter(g, view, f, [Enter(e, at)]), f, at)
  {
    var view := Around(g.lists.Keys, g.placement[f]);
    StepErrs(g, view, f, Enter(e, at), at);
    assert Stays(Next(g, Enter(e, at)), f, []);
    assert [Enter(e, at)][1..] == [];
  }

  /** No step makes or erases a cell inside the window, except one that the entity's move brings into
    * it or out of it. */
  ghost predicate Undisturbed(g: Grid, f: Entity, steps: seq<Step>)
    requires Clean(g) && Stays(g, f, steps)
    decreases |steps|
  {
    steps != [] ==>
      (forall p :: Changes(g, steps[0], p) && Near(g.placement[f], p, LOAD_RADIUS) ==> Crosses(g, f, steps[0], p))
      && Undisturbed(Next(g, steps[0]), f, steps[1..])
  }

  ghost predicate RightThroughout(g: Grid, view: set<Pos>, f: Entity, steps: seq<Step>)
    requires Clean(g) && Stays(g, f, steps)
    decreases |steps|
  {
    view == Around(g.lists.Keys, g.placement[f])
    && (steps != [] ==> RightThroughout(Next(g, steps[0]), Viewed(g, view, f, steps[0]), f, steps[1..]))
  }

  /** A client is right all along a run exactly when nothing changes inside the window. */
  lemma {:induction false} RightIffUndisturbed(g: Grid, f: Entity, steps: seq<Step>)
    requires Clean(g) && Stays(g, f, steps)
    ensures RightThroughout(g, Around(g.lists.Keys, g.placement[f]), f, steps) <==> Undisturbed(g, f, steps)
    decreases |steps|
  {
    if steps == [] {
    } else {
      var view, s := Around(g.lists.Keys, g.placement[f]), steps[0];
      var h, after := Next(g, s), Viewed(g, view, f, s);
      forall p ensures Wrong(h, after, f, p)
          <==> Changes(g, s, p) && Near(g.placement[f], p, LOAD_RADIUS) && !Crosses(g, f, s, p) {
        StepErrs(g, view, f, s, p);
      }
      RightIffNowhereWrong(h, after, f);
      RightIffUndisturbed(h, f, steps[1..]);
      hide Next, Viewed, Changes, Crosses, Near, Wrong;
    }
  }

  lemma RightIffNowhereWrong(g: Grid, view: set<Pos>, f: Entity)
    requires f in g.placement
    ensures view == Around(g.lists.Keys, g.placement[f]) <==> forall p :: !Wrong(g, view, f, p)
  {
    if forall p :: !Wrong(g, view, f, p) {
      forall p ensures p in view <==> p in Around(g.lists.Keys, g.placement[f]) {
        assert !Wrong(g, view, f, p);
      }
    }
  }
}
