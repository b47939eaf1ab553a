/** The level's sparse grid of cells, and the cells each entity stands in. */
module Grid {

  import opened Options

  type Entity = nat

  /** A cell position: two signed 16-bit coordinates. */
  datatype Pos = Pos(x: int, y: int)

  predicate Fits(p: Pos) {
    -32768 <= p.x < 32768 && -32768 <= p.y < 32768
  }

  /** Conversion to a signed 16-bit coordinate. */
  function ToInt16(i: int): int {
    (i + 32768) % 65536 - 32768
  }

  const LOAD_RADIUS := 3

  /** How far one coordinate lies from the low edge of a window, around the 16-bit circle. */
  function Offset(center: int, coordinate: int, range: nat): int {
    (coordinate - center + range) % 65536
  }

  /** In the window: at most `range` below and less than `range` above, on both axes, with wrap-around. */
  predicate Near(center: Pos, p: Pos, range: nat) {
    Offset(center.x, p.x, range) < 2 * range && Offset(center.y, p.y, range) < 2 * range
  }

  /** A position some steps away on either axis, around the 16-bit circle. */
  function Shifted(center: Pos, dx: int, dy: int): Pos {
    Pos(ToInt16(center.x + dx), ToInt16(center.y + dy))
  }

  predicate InReach(d: int, range: nat) {
    0 - range <= d < range
  }

  lemma ToInt16Wraps(i: int)
    ensures -32768 <= ToInt16(i) < 32768 && (i - ToInt16(i)) % 65536 == 0
    ensures -32768 <= i < 32768 ==> ToInt16(i) == i
  {
  }

  lemma OffsetIff(center: int, coordinate: int, range: nat)
    requires -32768 <= coordinate < 32768 && 2 * range < 65536
    ensures var d := Offset(center, coordinate, range) - range;
            coordinate == ToInt16(center + d) && (Offset(center, coordinate, range) < 2 * range <==> InReach(d, range))
    ensures forall d :: InReach(d, range) && coordinate == ToInt16(center + d) ==>
              Offset(center, coordinate, range) == d + range
  {
  }

  /** The window is what some steps reach: from minus the range up to, but not including, the range on each axis. */
  lemma NearIff(center: Pos, p: Pos, range: nat)
    requires Fits(p) && 2 * range < 65536
    ensures Near(center, p, range)
       <==> exists dx, dy :: InReach(dx, range) && InReach(dy, range) && p == Shifted(center, dx, dy)
  {
    OffsetIff(center.x, p.x, range);
    OffsetIff(center.y, p.y, range);
    hide Offset, ToInt16;
    if Near(center, p, range) {
      assert p == Shifted(center, Offset(center.x, p.x, range) - range, Offset(center.y, p.y, range) - range);
    }
  }

  /** The corners of the load window, and a window across the edge of the coordinates. */
  lemma WindowExamples()
    ensures Near(Pos(0, 0), Pos(-3, -3), LOAD_RADIUS) && Near(Pos(0, 0), Pos(2, 2), LOAD_RADIUS)
    ensures !Near(Pos(0, 0), Pos(-4, 0), LOAD_RADIUS) && !Near(Pos(0, 0), Pos(0, 3), LOAD_RADIUS)
    ensures Near(Pos(32767, 0), Pos(-32767, 0), LOAD_RADIUS) && !Near(Pos(32767, 0), Pos(-32766, 0), LOAD_RADIUS)
  {
  }

  predicate Before(center: Pos, p: Pos, range: nat, u: int, v: int) {
    Offset(center.x, p.x, range) < u || (Offset(center.x, p.x, range) == u && Offset(center.y, p.y, range) < v)
  }

  lemma OffsetDecides(center: int, range: nat, u: int)
    requires -32768 <= center < 32768 && 0 <= u < 2 * range < 65536
    ensures var at := ToInt16(center - range + u);
            -32768 <= at < 32768 && forall x :: -32768 <= x < 32768 ==> (Offset(center, x, range) == u <==> x == at)
  {
  }

  lemma OffsetsDecide(center: Pos, range: nat, u: int, v: int)
    requires Fits(center) && 0 <= u < 2 * range && 0 <= v < 2 * range && 2 * range < 65536
    ensures var at := Pos(ToInt16(center.x - range + u), ToInt16(center.y - range + v));
            Fits(at)
            && forall p :: Fits(p) ==>
                 (Offset(center.x, p.x, range) == u && Offset(center.y, p.y, range) == v <==> p == at)
  {
    hide ToInt16, Offset;
    OffsetDecides(center.x, range, u);
    OffsetDecides(center.y, range, v);
  }

  /** The existing cells in the window around a cell. */
  function Around(existing: set<Pos>, center: Pos): set<Pos> {
    set p | p in existing && Near(center, p, LOAD_RADIUS)
  }

  /** What comes into view on the way from one cell to another; the other way round, what goes out of view. */
  function ToLoad(existing: set<Pos>, from: Pos, to: Pos): set<Pos> {
    Around(existing, to) - Around(existing, from)
  }

  class GridCell {
    const position: Pos
    var entities: seq<Entity>

    constructor (position: Pos)
      ensures this.position == position && entities == []
    {
      this.position := position;
      entities := [];
    }
  }

  predicate Distinct(xs: seq<Entity>) {
    forall i, j :: 0 <= i < j < |xs| ==> xs[i] != xs[j]
  }

  function IndexOf(xs: seq<Entity>, e: Entity): (i: nat)
    requires e in xs
    ensures i < |xs| && xs[i] == e
  {
    if xs[0] == e then 0 else 1 + IndexOf(xs[1..], e)
  }

  /** A list without the first occurrence of an entity. */
  function Without(xs: seq<Entity>, e: Entity): seq<Entity>
    requires e in xs
  {
    xs[..IndexOf(xs, e)] + xs[IndexOf(xs, e) + 1..]
  }

  lemma WithoutRemoves(xs: seq<Entity>, e: Entity)
    requires e in xs && Distinct(xs)
    ensures Distinct(Without(xs, e))
    ensures forall f :: f in Without(xs, e) <==> f in xs && f != e
  {
    var i := IndexOf(xs, e);
    assert xs == xs[..i] + [e] + xs[i + 1..];
    forall f | f in xs && f != e ensures f in Without(xs, e) {
      var j :| 0 <= j < |xs| && xs[j] == f;
      assert f in xs[..i] || f in xs[i + 1..] by {
        if j < i {
          assert xs[..i][j] == f;
        } else {
          assert xs[i + 1..][j - i - 1] == f;
        }
      }
    }
  }

  /** What is left is the list on either side of the first occurrence, in order. */
  lemma {:induction false} WithoutKeepsOrder(before: seq<Entity>, e: Entity, after: seq<Entity>)
    requires e !in before
    ensures Without(before + [e] + after, e) == before + after
  {
    FirstIndex(before, e, after);
  }

  lemma {:induction false} FirstIndex(before: seq<Entity>, e: Entity, after: seq<Entity>)
    requires e !in before
    ensures e in before + [e] + after && IndexOf(before + [e] + after, e) == |before|
  {
    var xs := before + [e] + after;
    assert xs[|before|] == e;
    if before != [] {
      assert xs[1..] == before[1..] + [e] + after;
      FirstIndex(before[1..], e, after);
    }
  }

  // ----- The grid as a value

  /** What each cell lists, and the cell each placed entity stands in. */
  datatype Grid = Grid(lists: map<Pos, seq<Entity>>, placement: map<Entity, Pos>)

  /** No cell lists an entity twice, and a cell lists exactly the entities that stand in it. */
  ghost predicate Sound(g: Grid) {
    (forall p <- g.lists :: Fits(p) && Distinct(g.lists[p]))
    && (forall p <- g.lists, e <- g.lists[p] :: e in g.placement && g.placement[e] == p)
    && (forall e <- g.placement :: g.placement[e] in g.lists && e in g.lists[g.placement[e]])
  }

  /** No cell is empty, except perhaps at some positions. */
  predicate NoneEmpty(g: Grid, but: set<Pos>) {
    forall p <- g.lists :: g.lists[p] != [] || p in but
  }

  /** What holds between operations: a sound grid without empty cells. */
  ghost predicate Clean(g: Grid) {
    Sound(g) && NoneEmpty(g, {})
  }

  /** Every placed entity is in exactly one cell's list, exactly once: the one it stands in. */
  lemma InExactlyOneCell(g: Grid, e: Entity, p: Pos)
    requires Sound(g) && p in g.lists
    ensures e in g.lists[p] <==> e in g.placement && g.placement[e] == p
    ensures var l := g.lists[p];
            forall i, j :: 0 <= i < |l| && 0 <= j < |l| && l[i] == e && l[j] == e ==> i == j
  {
  }

  function Made(g: Grid, p: Pos): Grid {
    if p in g.lists then g else g.(lists := g.lists[p := []])
  }

  function Placed(g: Grid, e: Entity, p: Pos): Grid
    requires p in g.lists
  {
    Grid(g.lists[p := g.lists[p] + [e]], g.placement[e := p])
  }

  function Taken(g: Grid, e: Entity, p: Pos): Grid
    requires p in g.lists && e in g.lists[p]
  {
    Grid(g.lists[p := Without(g.lists[p], e)], g.placement - {e})
  }

  function Swept(g: Grid, p: Pos): Grid
    requires p in g.lists
  {
    if g.lists[p] == [] then g.(lists := g.lists - {p}) else g
  }

  lemma MadeIsSound(g: Grid, p: Pos)
    requires Sound(g) && Fits(p)
    ensures Sound(Made(g, p)) && (NoneEmpty(g, {}) ==> NoneEmpty(Made(g, p), {p}))
  {
  }

  lemma PlacedIsSound(g: Grid, e: Entity, p: Pos)
    requires Sound(g) && p in g.lists && e !in g.placement
    ensures Sound(Placed(g, e, p))
  {
    assert e !in g.lists[p];
    var h := Placed(g, e, p);
    assert h.lists.Keys == g.lists.Keys && h.placement == g.placement[e := p];
    forall q <- h.lists
      ensures Distinct(h.lists[q]) && forall f <- h.lists[q] :: f in h.placement && h.placement[f] == q
    {
      assert q != p ==> h.lists[q] == g.lists[q];
      assert q == p ==> forall f <- h.lists[q] :: f in g.lists[p] || f == e;
    }
    forall f <- h.placement ensures h.placement[f] in h.lists && f in h.lists[h.placement[f]] {
      if f == e {
        assert h.lists[p][|g.lists[p]|] == e;
      } else {
        assert f in g.lists[g.placement[f]];
      }
    }
  }

  /** To place an entity that already stands in a cell leaves it listed there: it spoils the grid. */
  lemma PlacedIsSoundIff(g: Grid, e: Entity, p: Pos)
    requires Sound(g) && p in g.lists
    ensures Sound(Placed(g, e, p)) <==> e !in g.placement
  {
    if e in g.placement {
      var h := Placed(g, e, p);
      var q := g.placement[e];
      var i :| 0 <= i < |g.lists[q]| && g.lists[q][i] == e;
      if q == p {
        assert h.lists[p][i] == h.lists[p][|g.lists[p]|];
        assert !Distinct(h.lists[p]);
      } else {
        assert h.lists[q][i] == e;
        assert e in h.lists[q] && h.placement[e] != q;
      }
    } else {
      PlacedIsSound(g, e, p);
    }
  }

  lemma PlacedFills(g: Grid, e: Entity, p: Pos, but: set<Pos>)
    requires p in g.lists
    ensures NoneEmpty(g, but + {p}) ==> NoneEmpty(Placed(g, e, p), but)
  {
  }

  lemma TakenIsSound(g: Grid, e: Entity, p: Pos)
    requires Sound(g) && e in g.placement && g.placement[e] == p
    ensures p in g.lists && e in g.lists[p] && Sound(Taken(g, e, p))
  {
    WithoutRemoves(g.lists[p], e);
    hide Without, Distinct;
    var h := Taken(g, e, p);
    forall q <- h.lists
      ensures Distinct(h.lists[q]) && forall f <- h.lists[q] :: f in h.placement && h.placement[f] == q
    {
      assert q != p ==> h.lists[q] == g.lists[q];
    }
    forall f <- h.placement ensures h.placement[f] in h.lists && f in h.lists[h.placement[f]] {
      assert f in g.lists[g.placement[f]];
    }
  }

  lemma TakenMayEmpty(g: Grid, e: Entity, p: Pos, but: set<Pos>)
    requires p in g.lists && e in g.lists[p]
    ensures NoneEmpty(g, but) ==> NoneEmpty(Taken(g, e, p), but + {p})
  {
    hide Without;
  }

  lemma SweptIsSound(g: Grid, p: Pos)
    requires Sound(g) && p in g.lists
    ensures Sound(Swept(g, p)) && (NoneEmpty(g, {p}) ==> NoneEmpty(Swept(g, p), {}))
  {
  }

  // ----- What the level does to its grid

  /** An entity enters a cell, which is made if there is none. */
  function Entered(g: Grid, e: Entity, p: Pos): Grid {
    Placed(Made(g, p), e, p)
  }

  /** An entity, if placed, leaves its cell, which goes when it is empty. */
  function Left(g: Grid, e: Entity): Grid
    requires Sound(g)
  {
    if e in g.placement then Swept(Taken(g, e, g.placement[e]), g.placement[e]) else g
  }

  /** An entity is taken from its cell and placed in another, and its old cell goes when it is empty. */
  function Moved(g: Grid, e: Entity, to: Pos): Grid
    requires Sound(g) && e in g.placement && to in g.lists
  {
    var from := g.placement[e];
    Swept(Placed(Taken(g, e, from), e, to), from)
  }

  lemma EnteredIsCleanIff(g: Grid, e: Entity, p: Pos)
    requires Clean(g) && Fits(p)
    ensures Clean(Entered(g, e, p)) <==> e !in g.placement
    ensures Entered(g, e, p).placement == g.placement[e := p]
  {
    MadeIsSound(g, p);
    PlacedIsSoundIff(Made(g, p), e, p);
    assert {} + {p} == {p};
    PlacedFills(Made(g, p), e, p, {});
    hide Sound, NoneEmpty;
  }

  lemma LeftIsClean(g: Grid, e: Entity)
    requires Clean(g)
    ensures Clean(Left(g, e))
    ensures Left(g, e).placement == g.placement - {e}
  {
    hide Sound, NoneEmpty, Without;
    if e in g.placement {
      var p := g.placement[e];
      TakenIsSound(g, e, p);
      TakenMayEmpty(g, e, p, {});
      assert {} + {p} == {p};
      SweptIsSound(Taken(g, e, p), p);
    } else {
      assert g.placement - {e} == g.placement;
    }
  }

  /** A cell just made for the move may be empty before it, and no cell is after it. */
  lemma MovedIsClean(g: Grid, e: Entity, to: Pos)
    requires Sound(g) && NoneEmpty(g, {to}) && e in g.placement && to in g.lists
    ensures var from := g.placement[e];
            var t := Taken(g, e, from);
            Sound(Placed(t, e, to)) && Moved(g, e, to) == Swept(Placed(t, e, to), from)
    ensures Clean(Moved(g, e, to))
    ensures Moved(g, e, to).placement == g.placement[e := to]
  {
    hide Sound, NoneEmpty, Without;
    var from := g.placement[e];
    assert {to} + {from} == {from} + {to} && {} + {from} == {from};
    TakenIsSound(g, e, from);
    TakenMayEmpty(g, e, from, {to});
    var t := Taken(g, e, from);
    PlacedIsSound(t, e, to);
    PlacedFills(t, e, to, {from});
    SweptIsSound(Placed(t, e, to), from);
    assert (g.placement - {e})[e := to] == g.placement[e := to];
  }

  // ----- The level as an object

  class Level {
    var cells: map<Pos, GridCell>
    /** The cell component of each entity. */
    var component: map<Entity, GridCell>

    /** The cells are filed under their own positions, and components name cells of the level. */
    ghost predicate Shape()
      reads this
    {
      (forall p <- cells :: cells[p].position == p) && (forall e <- component :: InCells(component[e]))
    }

    ghost predicate InCells(cell: GridCell)
      reads this`cells
    {
      cell.position in cells && cells[cell.position] == cell
    }

    ghost function Contents(): Grid
      reads this, cells.Values
    {
      Grid(Lists(), Placement())
    }

    ghost function Lists(): map<Pos, seq<Entity>>
      reads this`cells, cells.Values
    {
      map p | p in cells :: cells[p].entities
    }

    ghost function Placement(): map<Entity, Pos>
      reads this`component
    {
      map e | e in component :: component[e].position
    }

    ghost predicate Valid()
      reads this, cells.Values
    {
      Shape() && Clean(Contents())
    }

    constructor ()
      ensures Valid() && Contents() == Grid(map[], map[])
    {
      cells := map[];
      component := map[];
    }

    method GetCell(p: Pos) returns (cell: GridCell)
      requires Shape()
      modifies this`cells
      ensures Shape() && InCells(cell) && cell.position == p
      ensures Contents() == Made(old(Contents()), p)
      ensures if p in old(cells) then cell == old(cells)[p] else fresh(cell)
    {
      if p !in cells {
        var inserted := new GridCell(p);
        cells := cells[p := inserted];
      }
      cell := cells[p];
    }

    /** The cell's own list, and the entity's component. */
    method CellAdd(cell: GridCell, e: Entity)
      requires Shape() && InCells(cell)
      modifies this`component, cell`entities
      ensures Shape() && Contents() == Placed(old(Contents()), e, cell.position)
      ensures component == old(component)[e := cell] && cell.entities == old(cell.entities) + [e]
    {
      cell.entities := cell.entities + [e];
      component := component[e := cell];
      assert Lists() == old(Lists())[cell.position := cell.entities];
      assert Placement() == old(Placement())[e := cell.position];
    }

    method CellRemove(cell: GridCell, e: Entity)
      requires Shape() && InCells(cell) && e in cell.entities
      modifies this`component, cell`entities
      ensures Shape() && Contents() == Taken(old(Contents()), e, cell.position)
    {
      hide Without;
      component := component - {e};
      cell.entities := Erase(cell.entities, e);
      assert Lists() == old(Lists())[cell.position := cell.entities];
      assert Placement() == old(Placement()) - {e};
    }

    /** A cell that has become empty is erased. */
    method Sweep(cell: GridCell)
      requires Shape() && InCells(cell) && Sound(Contents())
      modifies this`cells
      ensures Shape() && Contents() == Swept(old(Contents()), cell.position)
    {
      if |cell.entities| == 0 {
        assert Contents().lists[cell.position] == [];
        forall e <- component ensures component[e].position != cell.position {
          assert e in Contents().placement;
        }
        cells := cells - {cell.position};
        assert Lists() == old(Lists()) - {cell.position};
      }
    }

    /** An entity without a movement component has no position and is not placed. An entity that is
      * already placed ends up in two cells, or twice in one. */
    method Add(e: Entity, at: Option<Pos>) returns (placed: bool)
      requires Valid() && (at.Some? ==> Fits(at.value))
      modifies this, cells.Values
      ensures placed == at.Some?
      ensures Contents() == if at.Some? then Entered(old(Contents()), e, at.value) else old(Contents())
      ensures Valid() <==> at.None? || e !in old(component)
    {
      hide Clean, Made, Placed;
      if at.None? {
        return false;
      }
      EnteredIsCleanIff(Contents(), e, at.value);
      assert e in component <==> e in Contents().placement;
      var cell := GetCell(at.value);
      CellAdd(cell, e);
      return true;
    }

    method Remove(e: Entity)
      requires Valid()
      modifies this, cells.Values
      ensures Valid()
      ensures Contents() == Left(old(Contents()), e)
    {
      LeftIsClean(Contents(), e);
      if e in component {
        var cell := component[e];
        TakenIsSound(Contents(), e, cell.position);
        hide Sound, Clean, Taken, Swept;
        CellRemove(cell, e);
        Sweep(cell);
      }
    }

    /** The positions of cells. */
    ghost function PositionsOf(these: set<GridCell>): set<Pos> {
      set c | c in these :: c.position
    }

    /** The entity moves, and the cells to load and to unload are the two differences of the windows. */
    method TransferCell(e: Entity, oldCell: GridCell, newCell: GridCell)
      returns (cellsToLoad: set<GridCell>, cellsToUnload: set<GridCell>)
      requires Shape() && Sound(Contents()) && NoneEmpty(Contents(), {newCell.position})
      requires e in component && component[e] == oldCell && InCells(newCell)
      modifies this, cells.Values
      ensures Valid()
      ensures Contents() == Moved(old(Contents()), e, newCell.position)
      ensures PositionsOf(cellsToLoad) == ToLoad(old(cells.Keys), oldCell.position, newCell.position)
      ensures PositionsOf(cellsToUnload) == ToLoad(old(cells.Keys), newCell.position, oldCell.position)
    {
      MovedIsClean(Contents(), e, newCell.position);
      StandsThere(e);
      CellsAreFiled();
      hide Sound, Clean, Taken, Placed, Swept, Shape, Lists, Placement, ToLoad, PositionsOf;
      cellsToLoad, cellsToUnload := TakeAndCollect(e, oldCell, newCell);
      PlaceAndSweep(e, oldCell, newCell);
    }

    method TakeAndCollect(e: Entity, oldCell: GridCell, newCell: GridCell)
      returns (cellsToLoad: set<GridCell>, cellsToUnload: set<GridCell>)
      requires Shape() && FiledByPosition() && InCells(oldCell) && InCells(newCell) && e in oldCell.entities
      modifies this`component, oldCell`entities
      ensures Shape() && Contents() == Taken(old(Contents()), e, oldCell.position)
      ensures PositionsOf(cellsToLoad) == ToLoad(cells.Keys, oldCell.position, newCell.position)
      ensures PositionsOf(cellsToUnload) == ToLoad(cells.Keys, newCell.position, oldCell.position)
    {
      hide Shape, Contents, PositionsOf, ToLoad, Taken;
      CellRemove(oldCell, e);
      cellsToLoad, cellsToUnload := CollectCells(newCell, oldCell);
    }

    method PlaceAndSweep(e: Entity, oldCell: GridCell, newCell: GridCell)
      requires Shape() && InCells(oldCell) && InCells(newCell) && Sound(Placed(Contents(), e, newCell.position))
      modifies this`cells, this`component, newCell`entities
      ensures Shape() && oldCell.position in old(Contents()).lists && newCell.position in old(Contents()).lists
      ensures Contents() == Swept(Placed(old(Contents()), e, newCell.position), oldCell.position)
    {
      hide Sound, Swept, Shape;
      CellAdd(newCell, e);
      Sweep(oldCell);
    }

    lemma StandsThere(e: Entity)
      requires Shape() && Sound(Contents()) && e in component
      ensures InCells(component[e]) && e in component[e].entities
      ensures e in Contents().placement && Contents().placement[e] == component[e].position
    {
      TakenIsSound(Contents(), e, component[e].position);
    }

    lemma CellsAreFiled()
      requires Shape() && Sound(Contents())
      ensures FiledByPosition()
    {
      forall p <- cells ensures Fits(p) {
        assert p in Contents().lists;
      }
    }

    ghost predicate FiledByPosition()
      reads this`cells
    {
      forall p <- cells :: Fits(p) && cells[p].position == p
    }

    /** The existing cells in the window around a position. */
    ghost function Window(center: Pos, range: nat): set<GridCell>
      reads this`cells
    {
      set p | p in cells && Near(center, p, range) :: cells[p]
    }

    lemma PositionsOfDifference(to: Pos, from: Pos)
      requires FiledByPosition()
      ensures PositionsOf(Window(to, LOAD_RADIUS) - Window(from, LOAD_RADIUS)) == ToLoad(cells.Keys, from, to)
    {
      hide Near;
      forall p | p in ToLoad(cells.Keys, from, to)
        ensures p in PositionsOf(Window(to, LOAD_RADIUS) - Window(from, LOAD_RADIUS))
      {
        assert cells[p] in Window(to, LOAD_RADIUS) && cells[p].position == p;
      }
    }

    /** Every cell of the window around a cell, in the order of the scan. */
    method CellsInRange(center: GridCell, range: nat) returns (visited: seq<GridCell>)
      requires FiledByPosition() && InCells(center) && 2 * range < 65536
      ensures (set c | c in visited) == Window(center.position, range)
      ensures forall k, l :: 0 <= k < l < |visited| ==> visited[k] != visited[l]
    {
      var pos := center.position;
      visited := [];
      var i := pos.x - range;
      while i < range + pos.x
        invariant pos.x - range <= i <= range + pos.x
        invariant Scanned(visited, pos, range, i - (pos.x - range), 0)
      {
        var j := pos.y - range;
        while j < range + pos.y
          invariant pos.y - range <= j <= range + pos.y
          invariant Scanned(visited, pos, range, i - (pos.x - range), j - (pos.y - range))
        {
          var at := Pos(ToInt16(i), ToInt16(j));
          OffsetsDecide(pos, range, i - (pos.x - range), j - (pos.y - range));
          if at in cells {
            visited := visited + [cells[at]];
          }
          j := j + 1;
        }
        i := i + 1;
      }
      forall c <- visited ensures c in Window(pos, range) {
        assert cells[c.position] == c;
      }
    }

    /** The cells visited are those of the window before column v of row u. */
    ghost predicate Scanned(visited: seq<GridCell>, pos: Pos, range: nat, u: int, v: int)
      reads this
    {
      (forall c <- visited :: InCells(c))
      && (forall p <- cells :: cells[p] in visited <==> Near(pos, p, range) && Before(pos, p, range, u, v))
      && (forall k, l :: 0 <= k < l < |visited| ==> visited[k] != visited[l])
    }

    /** The cells an entity comes to see, and those it no longer sees, when it moves. */
    method CollectCells(newCell: GridCell, oldCell: GridCell) returns (toLoad: set<GridCell>, toUnload: set<GridCell>)
      requires FiledByPosition() && InCells(newCell) && InCells(oldCell)
      ensures toLoad == Window(newCell.position, LOAD_RADIUS) - Window(oldCell.position, LOAD_RADIUS)
      ensures toUnload == Window(oldCell.position, LOAD_RADIUS) - Window(newCell.position, LOAD_RADIUS)
      ensures PositionsOf(toLoad) == ToLoad(cells.Keys, oldCell.position, newCell.position)
      ensures PositionsOf(toUnload) == ToLoad(cells.Keys, newCell.position, oldCell.position)
    {
      PositionsOfDifference(newCell.position, oldCell.position);
      PositionsOfDifference(oldCell.position, newCell.position);
      hide ToLoad, PositionsOf;
      toLoad, toUnload := {}, {};
      var around := CellsInRange(newCell, LOAD_RADIUS);
      for k := 0 to |around|
        invariant toLoad == set c | c in around[..k]
      {
        toLoad := toLoad + {around[k]};
      }
      assert around[..|around|] == around;
      ghost var seen := toLoad;
      var behind := CellsInRange(oldCell, LOAD_RADIUS);
      for k := 0 to |behind|
        invariant toLoad == seen - (set c | c in behind[..k])
        invariant toUnload == (set c | c in behind[..k]) - seen
      {
        if behind[k] !in toLoad {
          toUnload := toUnload + {behind[k]};
        } else {
          toLoad := toLoad - {behind[k]};
        }
      }
      assert behind[..|behind|] == behind;
    }
  }

  /** The first occurrence is erased. */
  method Erase(xs: seq<Entity>, e: Entity) returns (ys: seq<Entity>)
    requires e in xs
    ensures ys == Without(xs, e)
  {
    var i := 0;
    while xs[i] != e
      invariant 0 <= i <= IndexOf(xs, e)
      decreases |xs| - i
    {
      IndexOfIsFirst(xs, e, i);
      i := i + 1;
    }
    IndexOfIsFirst(xs, e, i);
    ys := xs[..i] + xs[i + 1..];
  }

  lemma {:induction false} IndexOfIsFirst(xs: seq<Entity>, e: Entity, i: nat)
    requires e in xs && i <= IndexOf(xs, e)
    ensures i == IndexOf(xs, e) <==> xs[i] == e
    decreases |xs|
  {
    if i > 0 {
      IndexOfIsFirst(xs[1..], e, i - 1);
    }
  }
}
