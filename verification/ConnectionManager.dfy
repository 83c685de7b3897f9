/** BaseConnectionManager: the registered NICs, the grid that holds them by cell, and the updates of both. */
module ConnectionManager {
  import opened GridGeometry
  import opened CoordSet
  import opened Connections

  /** The ids in one cell are those of the NICs positioned there. */
  ghost predicate GridHolds(w: World, nics: Nics, grid: map<Cell, set<int>>)
    requires ValidWorld(w)
  {
    && (forall c :: InGrid(GridDim(w), c) <==> c in grid)
    && (forall c, i :: c in grid ==> (i in grid[c] <==> i in nics && CellOf(w, nics[i].pos) == c))
  }

  /** Positions inside the playground lie in cells of the grid. */
  lemma CellsInGrid(w: World, p: Coord)
    requires ValidWorld(w) && GridFits(w) && InPlayground(w, p)
    ensures InGrid(GridDim(w), CellOf(w, p))
  {
    AxesOk(w);
    hide AxisCell, CellWidth, GridDim, AxisOk;
    InsideAxis(w.size.x, GridDim(w).x, w.maxDistance, p.x);
    InsideAxis(w.size.y, GridDim(w).y, w.maxDistance, p.y);
    InsideAxis(w.size.z, GridDim(w).z, w.maxDistance, p.z);
  }

  lemma AxisNearInGrid(i: int, n: int, torus: bool, k: int)
    requires 0 <= i < n && k in AxisNear(i, n, torus)
    ensures 0 <= k < n
  {
  }

  lemma NeighboursInGrid(w: World, c: Cell)
    requires ValidWorld(w) && InGrid(GridDim(w), c)
    ensures forall e :: e in Neighbours(GridDim(w), w.torus, c) ==> InGrid(GridDim(w), e)
  {
    var dim := GridDim(w);
    forall e | e in Neighbours(dim, w.torus, c)
      ensures InGrid(dim, e)
    {
      NeighboursByAxis(dim, w.torus, c, e);
      AxisNearInGrid(c.x, dim.x, w.torus, e.x);
      AxisNearInGrid(c.y, dim.y, w.torus, e.y);
      AxisNearInGrid(c.z, dim.z, w.torus, e.z);
    }
  }

  class Manager {
    const world: World
    var nics: Nics
    var nicGrid: map<Cell, set<int>>

    ghost predicate Valid()
      reads this
    {
      ValidWorld(world) && GridFits(world) && Placed(world, nics) && GridHolds(world, nics, nicGrid)
    }

    constructor (world: World)
      requires ValidWorld(world) && GridFits(world)
      ensures Valid() && this.world == world && nics == map[]
    {
      this.world := world;
      nics := map[];
      var dim := GridDim(world);
      var grid: map<Cell, set<int>> := map[];
      for x := 0 to dim.x
        invariant forall c :: c in grid <==> InGrid(dim, c) && c.x < x
        invariant forall c :: c in grid ==> grid[c] == {}
      {
        for y := 0 to dim.y
          invariant forall c :: c in grid <==> InGrid(dim, c) && (c.x < x || (c.x == x && c.y < y))
          invariant forall c :: c in grid ==> grid[c] == {}
        {
          for z := 0 to dim.z
            invariant forall c :: c in grid <==>
              InGrid(dim, c) && (c.x < x || (c.x == x && (c.y < y || (c.y == y && c.z < z))))
            invariant forall c :: c in grid ==> grid[c] == {}
          {
            grid := grid[Cell(x, y, z) := {}];
          }
        }
      }
      nicGrid := grid;
    }

    method AddCell(gridUnion: CoordSet, cell: Cell, c: Cell, ghost a: Cell, ghost b: Cell)
      requires ValidWorld(world) && Room(gridUnion, a, b) && (cell == a || cell == b)
      requires var dim := GridDim(world);
        && c.x in AxisNear(cell.x, dim.x, world.torus) && c.y in AxisNear(cell.y, dim.y, world.torus)
        && c.z in AxisNear(cell.z, dim.z, world.torus)
      modifies gridUnion`size, gridUnion.data
      ensures Room(gridUnion, a, b) && gridUnion.Cells() == old(gridUnion.Cells()) + {c}
    {
      assert c in Neighbours(GridDim(world), world.torus, cell);
      hide Neighbours, GridDim;
      SlotsSuffice(gridUnion.data[..], GridDim(world), world.torus, a, b, c);
      gridUnion.Add(c);
    }

    /** Add the cells with x coordinate `cx` and z coordinate `cz`. */
    method AddRow(gridUnion: CoordSet, cell: Cell, cx: int, cz: int, ghost a: Cell, ghost b: Cell)
      requires ValidWorld(world) && Room(gridUnion, a, b) && (cell == a || cell == b)
      requires cx in AxisNear(cell.x, GridDim(world).x, world.torus)
      requires cz in AxisNear(cell.z, GridDim(world).z, world.torus)
      modifies gridUnion`size, gridUnion.data
      ensures Room(gridUnion, a, b)
      ensures gridUnion.Cells() == old(gridUnion.Cells())
                                   + Block({cx}, AxisNear(cell.y, GridDim(world).y, world.torus), {cz})
    {
      hide *;
      var n := GridDim(world).y;
      ghost var start := gridUnion.Cells();
      NearDone(cell.y, n, world.torus);
      EmptyBlocks({cx}, {}, {cz});
      for iy := cell.y - 1 to cell.y + 2
        invariant Room(gridUnion, a, b)
        invariant gridUnion.Cells() == start + Block({cx}, NearUpTo(cell.y, n, world.torus, iy), {cz})
      {
        var cy := WrapIfTorus(iy, n, world.torus);
        NearStep(cell.y, n, world.torus, iy);
        if cy != -1 {
          AddCell(gridUnion, cell, Cell(cx, cy, cz), a, b);
          RowGrows(cx, NearUpTo(cell.y, n, world.torus, iy), cy, cz);
        } else {
          assert NearUpTo(cell.y, n, world.torus, iy) + {} == NearUpTo(cell.y, n, world.torus, iy);
        }
      }
    }

    /** Add the cells with z coordinate `cz`. */
    method AddLayer(gridUnion: CoordSet, cell: Cell, cz: int, ghost a: Cell, ghost b: Cell)
      requires ValidWorld(world) && Room(gridUnion, a, b) && (cell == a || cell == b)
      requires cz in AxisNear(cell.z, GridDim(world).z, world.torus)
      modifies gridUnion`size, gridUnion.data
      ensures Room(gridUnion, a, b)
      ensures var dim := GridDim(world);
        gridUnion.Cells() == old(gridUnion.Cells())
          + Block(AxisNear(cell.x, dim.x, world.torus), AxisNear(cell.y, dim.y, world.torus), {cz})
    {
      hide *;
      var n := GridDim(world).x;
      ghost var start, ys := gridUnion.Cells(), AxisNear(cell.y, GridDim(world).y, world.torus);
      NearDone(cell.x, n, world.torus);
      EmptyBlocks({}, ys, {cz});
      for ix := cell.x - 1 to cell.x + 2
        invariant Room(gridUnion, a, b)
        invariant gridUnion.Cells() == start + Block(NearUpTo(cell.x, n, world.torus, ix), ys, {cz})
      {
        var cx := WrapIfTorus(ix, n, world.torus);
        NearStep(cell.x, n, world.torus, ix);
        if cx != -1 {
          AddRow(gridUnion, cell, cx, cz, a, b);
          LayerGrows(NearUpTo(cell.x, n, world.torus, ix), cx, ys, cz);
        } else {
          assert NearUpTo(cell.x, n, world.torus, ix) + {} == NearUpTo(cell.x, n, world.torus, ix);
        }
      }
    }

    /** Add the cell's neighbours, wrapped on a torus, to the union. The cells gathered so far surround
        `a` or `b`, so the set never runs out of slots. */
    method FillUnionWithNeighbors(gridUnion: CoordSet, cell: Cell, ghost a: Cell, ghost b: Cell)
      requires ValidWorld(world) && Room(gridUnion, a, b) && (cell == a || cell == b)
      modifies gridUnion`size, gridUnion.data
      ensures Room(gridUnion, a, b)
      ensures gridUnion.Cells() == old(gridUnion.Cells()) + Neighbours(GridDim(world), world.torus, cell)
    {
      hide *;
      var dim := GridDim(world);
      ghost var start := gridUnion.Cells();
      ghost var xs, ys := AxisNear(cell.x, dim.x, world.torus), AxisNear(cell.y, dim.y, world.torus);
      NearDone(cell.z, dim.z, world.torus);
      EmptyBlocks(xs, ys, {});
      NeighboursAreBlock(dim, world.torus, cell);
      for iz := cell.z - 1 to cell.z + 2
        invariant Room(gridUnion, a, b)
        invariant gridUnion.Cells() == start + Block(xs, ys, NearUpTo(cell.z, dim.z, world.torus, iz))
      {
        var cz := WrapIfTorus(iz, dim.z, world.torus);
        NearStep(cell.z, dim.z, world.torus, iz);
        if cz != -1 {
          AddLayer(gridUnion, cell, cz, a, b);
          BlockGrows(xs, ys, NearUpTo(cell.z, dim.z, world.torus, iz), cz);
        } else {
          assert NearUpTo(cell.z, dim.z, world.torus, iz) + {} == NearUpTo(cell.z, dim.z, world.torus, iz);
        }
      }
    }

    /** What the union holds while it is filled: neighbours of `a` or `b`, so it never runs out of slots. */
    ghost predicate Room(gridUnion: CoordSet, a: Cell, b: Cell)
      reads this, gridUnion, gridUnion.data
    {
      && ValidWorld(world) && gridUnion.Valid() && gridUnion.data.Length == SLOTS
      && InGrid(GridDim(world), a) && InGrid(GridDim(world), b)
      && gridUnion.Cells() <= Neighbours(GridDim(world), world.torus, a) + Neighbours(GridDim(world), world.torus, b)
    }

    method NewUnion(ghost a: Cell, ghost b: Cell) returns (gridUnion: CoordSet)
      requires ValidWorld(world) && InGrid(GridDim(world), a) && InGrid(GridDim(world), b)
      ensures fresh(gridUnion) && fresh(gridUnion.data) && gridUnion.current == 0
      ensures Room(gridUnion, a, b) && gridUnion.Cells() == {}
    {
      gridUnion := new CoordSet(SLOTS);
    }

    lemma RoomForOne(gridUnion: CoordSet, a: Cell, b: Cell)
      requires ValidWorld(world) && Room(gridUnion, a, b)
      ensures gridUnion.Valid() && HasRoom(gridUnion.data[..], a)
    {
      SlotsSuffice(gridUnion.data[..], GridDim(world), world.torus, a, b, a);
    }

    /** The cells to search: the neighbours of both cells. A grid of one cell is that cell alone. */
    method CellsToSearch(oldCell: Cell, newCell: Cell) returns (gridUnion: CoordSet)
      requires ValidWorld(world) && InGrid(GridDim(world), oldCell) && InGrid(GridDim(world), newCell)
      ensures fresh(gridUnion) && fresh(gridUnion.data) && gridUnion.Valid() && gridUnion.current == 0
      ensures gridUnion.Cells() == Neighbours(GridDim(world), world.torus, oldCell)
                                 + Neighbours(GridDim(world), world.torus, newCell)
    {
      hide *;
      var dim := GridDim(world);
      gridUnion := NewUnion(oldCell, newCell);
      RoomForOne(gridUnion, oldCell, newCell);
      if dim == Cell(1, 1, 1) {
        OneCell(dim, world.torus, oldCell, newCell);
        gridUnion.Add(oldCell);
      } else {
        FillUnionWithNeighbors(gridUnion, oldCell, oldCell, newCell);
        if oldCell != newCell {
          FillUnionWithNeighbors(gridUnion, newCell, oldCell, newCell);
        }
        RoomForOne(gridUnion, oldCell, newCell);
      }
    }

    /** Link or unlink `id` and each NIC of one cell, as they are in range or not. */
    method UpdateNicConnections(cellIds: set<int>, id: int, ghost start: Nics, ghost before: set<int>)
      requires id in start && cellIds <= start.Keys && id !in start[id].links && SymmetricWith(start, id)
      requires nics == Relink(world, start, id, before)
      modifies this`nics
      ensures nics == Relink(world, start, id, before + cellIds)
    {
      var todo := cellIds;
      ghost var done := before;
      while exists i :: i in todo
        invariant todo <= cellIds && done == before + (cellIds - todo)
        invariant nics == Relink(world, start, id, done)
        decreases todo
      {
        var i :| i in todo;
        todo := todo - {i};
        RelinkMore(world, start, id, done, i);
        if i != id {
          var inRange := InRange(world, nics[id].pos, nics[i].pos);
          var connected := i in nics[id].links;
          if inRange && !connected {
            nics := Connect(nics, id, i);
          } else if !inRange && connected {
            nics := Disconnect(nics, id, i);
          }
        }
        done := done + {i};
      }
      assert todo == {};
      assert done == before + cellIds;
    }
  
    /** Put `id` into its new cell and bring its links with all NICs around both cells up to date. */
    method CheckGrid(oldCell: Cell, newCell: Cell, id: int)
      requires ValidWorld(world) && InGrid(GridDim(world), oldCell) && InGrid(GridDim(world), newCell)
      requires id in nics && id !in nics[id].links && SymmetricWith(nics, id)
      requires CellOf(world, nics[id].pos) == newCell && GridHoldsBut(world, nics, nicGrid, id, oldCell)
      modifies this`nics, this`nicGrid
      ensures nics == Relink(world, old(nics), id,
                Within(world, old(nics), Neighbours(GridDim(world), world.torus, oldCell)
                                         + Neighbours(GridDim(world), world.torus, newCell)))
      ensures GridHolds(world, nics, nicGrid)
    {
      hide *;
      ghost var start, before := nics, nicGrid;
      MovedInGrid(world, start, before, id, oldCell, newCell);
      if oldCell != newCell {
        nicGrid := nicGrid[oldCell := nicGrid[oldCell] - {id}];
        nicGrid := nicGrid[newCell := nicGrid[newCell] + {id}];
      }
      var gridUnion := CellsToSearch(oldCell, newCell);
      UpdateAll(gridUnion, oldCell, newCell, id);
      RelinkKeepsGrid(world, start, nicGrid, id, Within(world, start, gridUnion.Cells()));
    }

    /** Walk the cells of the union. */
    method UpdateAll(gridUnion: CoordSet, ghost a: Cell, ghost b: Cell, id: int)
      requires ValidWorld(world) && gridUnion.Valid() && gridUnion.current == 0
      requires InGrid(GridDim(world), a) && InGrid(GridDim(world), b)
      requires gridUnion.Cells() == Neighbours(GridDim(world), world.torus, a) + Neighbours(GridDim(world), world.torus, b)
      requires id in nics && id !in nics[id].links && SymmetricWith(nics, id) && GridHolds(world, nics, nicGrid)
      modifies this`nics, gridUnion`current
      ensures gridUnion.Cells() == old(gridUnion.Cells())
      ensures nics == Relink(world, old(nics), id, Within(world, old(nics), gridUnion.Cells()))
    {
      hide *;
      ghost var start, all := nics, gridUnion.Cells();
      AllPending(gridUnion);
      var c := gridUnion.Next();
      NobodySeen(world, start, all, gridUnion.Pending(), c);
      RelinkNobody(world, start, id, Within(world, start, Seen(all, gridUnion.Pending(), c)));
      while c.Taken?
        invariant gridUnion.Valid() && gridUnion.Cells() == all
        invariant c.Taken? ==> c.cell in all && c.cell !in gridUnion.Pending()
        invariant c == Free ==> gridUnion.Pending() == {}
        invariant gridUnion.Pending() <= all
        invariant nics == Relink(world, start, id, Within(world, start, Seen(all, gridUnion.Pending(), c)))
        decreases gridUnion.data.Length - gridUnion.current, c.Taken?
      {
        ghost var seen := Seen(all, gridUnion.Pending(), c);
        UnionInGrid(c.cell, a, b);
        OneMoreCell(world, start, nicGrid, seen, c.cell);
        UpdateNicConnections(nicGrid[c.cell], id, start, Within(world, start, seen));
        ghost var pending, was := gridUnion.Pending(), c;
        c := gridUnion.Next();
        SeenStep(all, pending, was, gridUnion.Pending(), c);
      }
      SeenAll(all, gridUnion.Pending(), c);
    }

    lemma UnionInGrid(c: Cell, a: Cell, b: Cell)
      requires ValidWorld(world) && InGrid(GridDim(world), a) && InGrid(GridDim(world), b)
      requires c in Neighbours(GridDim(world), world.torus, a) + Neighbours(GridDim(world), world.torus, b)
      ensures InGrid(GridDim(world), c)
    {
      NeighboursInGrid(world, a);
      NeighboursInGrid(world, b);
    }
  
    method RegisterNic(id: int, pos: Coord)
      requires Valid() && Mutual(nics) && id !in nics && InPlayground(world, pos)
      modifies this`nics, this`nicGrid
      ensures Valid() && nics == Register(world, old(nics), id, pos)
    {
      var cell := CellOf(world, pos);
      CellsInGrid(world, pos);
      AddedToGrid(world, nics, nicGrid, id, pos);
      hide *;
      nics := nics[id := Nic(pos, {})];
      nicGrid := nicGrid[cell := nicGrid[cell] + {id}];
      ghost var added := nics;
      CheckGrid(cell, cell, id);
      RegisterIsRelink(world, added, id, pos);
      StaysValid(added, id);
    }

    /** Returns false, and changes nothing, for a NIC that is not registered. */
    method UpdateNicPos(id: int, newPos: Coord) returns (known: bool)
      requires Valid() && Mutual(nics) && InPlayground(world, newPos)
      modifies this`nics, this`nicGrid
      ensures Valid() && known == (id in old(nics))
      ensures nics == Apply(world, old(nics), DoMove(id, newPos))
    {
      known := id in nics;
      if !known {
        return;
      }
      var oldPos := nics[id].pos;
      var oldCell, newCell := CellOf(world, oldPos), CellOf(world, newPos);
      CellsInGrid(world, oldPos);
      CellsInGrid(world, newPos);
      MovedNics(world, nics, nicGrid, id, newPos);
      assert Apply(world, nics, DoMove(id, newPos)) == Move(world, nics, id, newPos);
      hide *;
      ghost var start := nics;
      nics := nics[id := nics[id].(pos := newPos)];
      ghost var moved := nics;
      CheckGrid(oldCell, newCell, id);
      MoveIsRelink(world, start, id, newPos);
      StaysValid(moved, id);
    }

    method UnregisterNic(id: int)
      requires Valid() && id in nics
      modifies this`nics, this`nicGrid
      ensures Valid() && nics == Unregister(world, old(nics), id)
    {
      var cell := CellOf(world, nics[id].pos);
      CellsInGrid(world, nics[id].pos);
      RemovedFromGrid(world, nics, nicGrid, id);
      hide *;
      ghost var start := nics;
      var gridUnion := CellsToSearch(cell, cell);
      DisconnectAll(gridUnion, cell, id);
      nicGrid := nicGrid[cell := nicGrid[cell] - {id}];
      ForgetDone(start, id, Within(world, start, gridUnion.Cells()), nics);
      nics := nics - {id};
      UnregisterIsForget(world, start, id);
      ForgetPlaced(world, start, id, Within(world, start, gridUnion.Cells()));
      StaysValid(nics, id);
    }

    /** One operation, while the links are those of the all-pairs definition. */
    method Handle(op: Operation)
      requires Valid() && Covers(world) && Exact(world, nics) && Allowed(world, nics, op)
      modifies this`nics, this`nicGrid
      ensures Valid() && nics == Apply(world, old(nics), op) && Exact(world, nics)
    {
      hide Covers, Exact, Placed, GridFits, GridHolds, Register, Move, Unregister, InPlayground;
      ExactIsMutual(world, nics);
      match op
      case DoRegister(id, pos) =>
        RegisterExact(world, nics, id, pos);
        RegisterNic(id, pos);
      case DoMove(id, pos) =>
        if id in nics {
          MoveExact(world, nics, id, pos);
        }
        var known := UpdateNicPos(id, pos);
      case DoUnregister(id) =>
        UnregisterExact(world, nics, id);
        UnregisterNic(id);
    }

    /** After any run of operations from an empty world the links are those of the all-pairs definition. */
    method HandleAll(ops: seq<Operation>)
      requires Valid() && nics == map[] && (world.torus ==> Slack(world)) && RunAllowed(world, nics, ops)
      modifies this`nics, this`nicGrid
      ensures Valid() && nics == Run(world, map[], ops) && Exact(world, nics)
    {
      hide Covers, Exact, Placed, GridFits, GridHolds, Apply, Allowed, Slack;
      EmptyExact(world);
      CoversIfSlack(world);
      for i := 0 to |ops|
        invariant Valid() && Exact(world, nics)
        invariant RunAllowed(world, nics, ops[i..]) && Run(world, nics, ops[i..]) == Run(world, map[], ops)
      {
        assert ops[i..][1..] == ops[i + 1..];
        Handle(ops[i]);
      }
    }

    /** Take the links of the NICs in the union's cells to `id` away, and `id`'s links to them. */
    method DisconnectAll(gridUnion: CoordSet, cell: Cell, id: int)
      requires ValidWorld(world) && gridUnion.Valid() && gridUnion.current == 0 && InGrid(GridDim(world), cell)
      requires gridUnion.Cells() == Neighbours(GridDim(world), world.torus, cell) + Neighbours(GridDim(world), world.torus, cell)
      requires id in nics && GridHolds(world, nics, nicGrid)
      modifies this`nics, gridUnion`current
      ensures gridUnion.Cells() == old(gridUnion.Cells())
      ensures Unlinked(old(nics), nics, id, Within(world, old(nics), gridUnion.Cells()))
    {
      hide *;
      ghost var start, all := nics, gridUnion.Cells();
      AllPending(gridUnion);
      var c := gridUnion.Next();
      NobodySeen(world, start, all, gridUnion.Pending(), c);
      NothingUnlinked(nics, id, Within(world, start, Seen(all, gridUnion.Pending(), c)));
      while c.Taken?
        invariant gridUnion.Valid() && gridUnion.Cells() == all
        invariant c.Taken? ==> c.cell in all && c.cell !in gridUnion.Pending()
        invariant c == Free ==> gridUnion.Pending() == {}
        invariant gridUnion.Pending() <= all
        invariant Unlinked(start, nics, id, Within(world, start, Seen(all, gridUnion.Pending(), c)))
        decreases gridUnion.data.Length - gridUnion.current, c.Taken?
      {
        ghost var seen := Seen(all, gridUnion.Pending(), c);
        UnionInGrid(c.cell, cell, cell);
        OneMoreCell(world, start, nicGrid, seen, c.cell);
        DisconnectCell(nicGrid[c.cell], id, start, Within(world, start, seen));
        ghost var pending, was := gridUnion.Pending(), c;
        c := gridUnion.Next();
        SeenStep(all, pending, was, gridUnion.Pending(), c);
      }
      SeenAll(all, gridUnion.Pending(), c);
    }

    method DisconnectCell(cellIds: set<int>, id: int, ghost start: Nics, ghost before: set<int>)
      requires id in start && cellIds <= start.Keys && Unlinked(start, nics, id, before)
      modifies this`nics
      ensures Unlinked(start, nics, id, before + cellIds)
    {
      var todo := cellIds;
      ghost var done := before;
      while exists i :: i in todo
        invariant todo <= cellIds && done == before + (cellIds - todo)
        invariant Unlinked(start, nics, id, done)
        decreases todo
      {
        var other :| other in todo;
        todo := todo - {other};
        if other != id && id in nics[other].links {
          nics := Disconnect(nics, other, id);
        }
        done := done + {other};
      }
      assert todo == {};
      assert done == before + cellIds;
    }

    lemma StaysValid(start: Nics, id: int)
      requires ValidWorld(world) && GridFits(world) && GridHolds(world, nics, nicGrid)
      requires Placed(world, start) && nics.Keys == start.Keys && forall i :: i in nics ==> nics[i].pos == start[i].pos
      ensures Valid()
    {
      hide InPlayground, GridFits, GridHolds;
    }
  }

  /** The cells of a union whose NICs have been updated: those returned, but for the last. */
  ghost function Seen(all: set<Cell>, pending: set<Cell>, c: Slot): set<Cell> {
    all - pending - (if c.Taken? then {c.cell} else {})
  }

  lemma SeenStep(all: set<Cell>, pending: set<Cell>, was: Slot, pending1: set<Cell>, c: Slot)
    requires was.Taken? && was.cell in all && was.cell !in pending && pending <= all
    requires if c.Taken? then c.cell in pending && pending1 == pending - {c.cell} else pending == pending1 == {}
    ensures Seen(all, pending1, c) == Seen(all, pending, was) + {was.cell}
  {
  }

  lemma SeenAll(all: set<Cell>, pending: set<Cell>, c: Slot)
    requires c == Free && pending == {}
    ensures Seen(all, pending, c) == all
  {
  }

  lemma NobodySeen(w: World, nics: Nics, all: set<Cell>, pending: set<Cell>, c: Slot)
    requires ValidWorld(w)
    requires if c.Taken? then c.cell in all && pending == all - {c.cell} else all == pending == {}
    ensures Within(w, nics, Seen(all, pending, c)) == {}
  {
    hide CellOf;
    assert Seen(all, pending, c) == {};
  }

  lemma AllPending(gridUnion: CoordSet)
    requires gridUnion.current == 0
    ensures gridUnion.Pending() == gridUnion.Cells()
  {
  }

  /** The grid holds everyone at their cell, but `id` at the cell `at`. */
  ghost predicate GridHoldsBut(w: World, nics: Nics, grid: map<Cell, set<int>>, id: int, at: Cell)
    requires ValidWorld(w)
  {
    && (forall c :: InGrid(GridDim(w), c) <==> c in grid)
    && (forall c, i :: c in grid ==>
          (i in grid[c] <==> i in nics && (if i == id then at == c else CellOf(w, nics[i].pos) == c)))
  }

  lemma MovedInGrid(w: World, nics: Nics, grid: map<Cell, set<int>>, id: int, oldCell: Cell, newCell: Cell)
    requires ValidWorld(w) && id in nics && GridHoldsBut(w, nics, grid, id, oldCell)
    requires CellOf(w, nics[id].pos) == newCell && InGrid(GridDim(w), oldCell) && InGrid(GridDim(w), newCell)
    ensures oldCell in grid && newCell in grid
    ensures if oldCell == newCell then GridHolds(w, nics, grid)
            else var g := grid[oldCell := grid[oldCell] - {id}];
              GridHolds(w, nics, g[newCell := g[newCell] + {id}])
  {
    hide CellOf, GridDim;
  }

  lemma OneMoreCell(w: World, nics: Nics, grid: map<Cell, set<int>>, seen: set<Cell>, c: Cell)
    requires ValidWorld(w) && GridHolds(w, nics, grid) && InGrid(GridDim(w), c)
    ensures c in grid && grid[c] <= nics.Keys
    ensures Within(w, nics, seen + {c}) == Within(w, nics, seen) + grid[c]
  {
    hide CellOf, GridDim;
    assert c in grid;
    forall i
      ensures i in grid[c] <==> i in nics && CellOf(w, nics[i].pos) == c
    {
    }
    assert forall i :: i in Within(w, nics, seen + {c}) <==> i in Within(w, nics, seen) || i in grid[c];
  }

  lemma RelinkKeepsGrid(w: World, nics: Nics, grid: map<Cell, set<int>>, id: int, others: set<int>)
    requires ValidWorld(w) && id in nics && GridHolds(w, nics, grid)
    ensures GridHolds(w, Relink(w, nics, id, others), grid)
  {
    hide CellOf, GridDim, InRange;
  }

  lemma RelinkNobody(w: World, nics: Nics, id: int, others: set<int>)
    requires id in nics && others == {}
    ensures Relink(w, nics, id, others) == nics
  {
    var r := Relink(w, nics, id, others);
    assert r[id].links == nics[id].links;
  }

  function Connect(nics: Nics, a: int, b: int): Nics
    requires a in nics && b in nics
  {
    nics[a := nics[a].(links := nics[a].links + {b})][b := nics[b].(links := nics[b].links + {a})]
  }

  function Disconnect(nics: Nics, a: int, b: int): Nics
    requires a in nics && b in nics
  {
    nics[a := nics[a].(links := nics[a].links - {b})][b := nics[b].(links := nics[b].links - {a})]
  }

  /** Links of `id` are mutual. */
  ghost predicate SymmetricWith(nics: Nics, id: int)
    requires id in nics
  {
    forall i :: i in nics ==> (i in nics[id].links <==> id in nics[i].links)
  }

  /** Relinking one more NIC is one link made, undone, or left as it is. */
  lemma RelinkMore(w: World, start: Nics, id: int, done: set<int>, i: int)
    requires id in start && i in start && id !in start[id].links && SymmetricWith(start, id)
    ensures var r := Relink(w, start, id, done);
      && id in r && i in r
      && Relink(w, start, id, done + {i}) ==
         if i == id then r
         else if InRange(w, r[id].pos, r[i].pos) && i !in r[id].links then Connect(r, id, i)
         else if !InRange(w, r[id].pos, r[i].pos) && i in r[id].links then Disconnect(r, id, i)
         else r
  {
    hide InRange;
    var r, t := Relink(w, start, id, done), Relink(w, start, id, done + {i});
    var x :=
      if i == id then r
      else if InRange(w, r[id].pos, r[i].pos) && i !in r[id].links then Connect(r, id, i)
      else if !InRange(w, r[id].pos, r[i].pos) && i in r[id].links then Disconnect(r, id, i)
      else r;
    assert t.Keys == x.Keys == start.Keys;
    forall k | k in start
      ensures t[k] == x[k]
    {
      assert t[k].pos == x[k].pos;
      assert forall j :: j in t[k].links <==> j in x[k].links;
    }
  }

  lemma OneCell(dim: Cell, torus: bool, a: Cell, b: Cell)
    requires dim == Cell(1, 1, 1) && InGrid(dim, a) && InGrid(dim, b)
    ensures Neighbours(dim, torus, a) + Neighbours(dim, torus, b) == {a}
  {
    assert a == b == Cell(0, 0, 0);
    assert AxisNear(0, 1, torus) == {0} by {
      assert WrapIfTorus(0, 1, torus) == 0;
    }
    assert a in Neighbours(dim, torus, a);
  }

  /** The part of AxisNear that the loop has covered before index `hi`. */
  function NearUpTo(i: int, n: int, torus: bool, hi: int): set<int> {
    set k | i - 1 <= k < hi && WrapIfTorus(k, n, torus) != -1 :: WrapIfTorus(k, n, torus)
  }

  lemma NearStep(i: int, n: int, torus: bool, hi: int)
    requires i - 1 <= hi <= i + 1
    ensures var k := WrapIfTorus(hi, n, torus);
      NearUpTo(i, n, torus, hi + 1) == NearUpTo(i, n, torus, hi) + (if k == -1 then {} else {k})
    ensures WrapIfTorus(hi, n, torus) != -1 ==> WrapIfTorus(hi, n, torus) in AxisNear(i, n, torus)
  {
  }

  lemma NearDone(i: int, n: int, torus: bool)
    ensures NearUpTo(i, n, torus, i + 2) == AxisNear(i, n, torus)
    ensures NearUpTo(i, n, torus, i - 1) == {}
  {
  }

  lemma EmptyBlocks(xs: set<int>, ys: set<int>, zs: set<int>)
    ensures xs == {} || ys == {} || zs == {} ==> Block(xs, ys, zs) == {}
  {
  }

  lemma NeighboursAreBlock(dim: Cell, torus: bool, c: Cell)
    ensures Neighbours(dim, torus, c) == Block(AxisNear(c.x, dim.x, torus), AxisNear(c.y, dim.y, torus), AxisNear(c.z, dim.z, torus))
  {
  }

  lemma RowGrows(x: int, ys: set<int>, y: int, z: int)
    ensures Block({x}, ys + {y}, {z}) == Block({x}, ys, {z}) + {Cell(x, y, z)}
  {
  }

  lemma LayerGrows(xs: set<int>, x: int, ys: set<int>, z: int)
    ensures Block(xs + {x}, ys, {z}) == Block(xs, ys, {z}) + Block({x}, ys, {z})
  {
  }

  lemma BlockGrows(xs: set<int>, ys: set<int>, zs: set<int>, z: int)
    ensures Block(xs, ys, zs + {z}) == Block(xs, ys, zs) + Block(xs, ys, {z})
  {
  }

  lemma AddedToGrid(w: World, nics: Nics, grid: map<Cell, set<int>>, id: int, pos: Coord)
    requires ValidWorld(w) && GridHolds(w, nics, grid) && Mutual(nics) && id !in nics && Placed(w, nics)
    requires InPlayground(w, pos) && InGrid(GridDim(w), CellOf(w, pos))
    ensures var (added, cell) := (nics[id := Nic(pos, {})], CellOf(w, pos));
      && cell in grid && SymmetricWith(added, id) && Placed(w, added)
      && GridHoldsBut(w, added, grid[cell := grid[cell] + {id}], id, cell)
  {
    hide CellOf, GridDim, InPlayground;
  }

  lemma MovedNics(w: World, nics: Nics, grid: map<Cell, set<int>>, id: int, pos: Coord)
    requires ValidWorld(w) && GridHolds(w, nics, grid) && Mutual(nics) && id in nics && Placed(w, nics)
    requires InPlayground(w, pos)
    ensures var (moved, cell) := (nics[id := nics[id].(pos := pos)], CellOf(w, nics[id].pos));
      && id !in moved[id].links && SymmetricWith(moved, id) && Placed(w, moved)
      && GridHoldsBut(w, moved, grid, id, cell)
  {
    hide CellOf, GridDim, InPlayground;
  }

  lemma RelinkPositions(w: World, nics: Nics, id: int, others: set<int>)
    requires id in nics
    ensures var r := Relink(w, nics, id, others);
      r.Keys == nics.Keys && forall i :: i in nics ==> r[i].pos == nics[i].pos
  {
    hide InRange;
  }

  lemma RegisterIsRelink(w: World, added: Nics, id: int, pos: Coord)
    requires ValidWorld(w) && id in added && added[id] == Nic(pos, {})
    ensures var n := Neighbours(GridDim(w), w.torus, CellOf(w, pos));
      var r := Relink(w, added, id, Within(w, added, n + n));
      && r.Keys == added.Keys && (forall i :: i in r ==> r[i].pos == added[i].pos)
      && forall nics: Nics :: nics[id := Nic(pos, {})] == added ==> Register(w, nics, id, pos) == r
  {
    hide CellOf, GridDim, InRange;
    var n := Neighbours(GridDim(w), w.torus, CellOf(w, pos));
    assert n + n == n;
    RelinkPositions(w, added, id, Within(w, added, n));
    hide Neighbours, Within, Relink;
  }

  lemma MoveIsRelink(w: World, nics: Nics, id: int, pos: Coord)
    requires ValidWorld(w) && id in nics
    ensures var moved := nics[id := nics[id].(pos := pos)];
      var cells := Neighbours(GridDim(w), w.torus, CellOf(w, nics[id].pos)) + Neighbours(GridDim(w), w.torus, CellOf(w, pos));
      var r := Relink(w, moved, id, Within(w, moved, cells));
      && r == Move(w, nics, id, pos)
      && r.Keys == moved.Keys && (forall i :: i in r ==> r[i].pos == moved[i].pos)
  {
    hide CellOf, GridDim, InRange, Neighbours, Within, Relink;
    var moved := nics[id := nics[id].(pos := pos)];
    RelinkPositions(w, moved, id, Within(w, moved, Around(w, nics[id].pos) + Around(w, pos)));
  }

  /** Everyone in `others` but `id` has lost the link to `id`; `id`'s own links do not matter any more. */
  ghost predicate Unlinked(start: Nics, nics: Nics, id: int, others: set<int>) {
    && id in nics && nics.Keys == start.Keys
    && forall i :: i in start && i != id ==>
         nics[i] == if i in others then start[i].(links := start[i].links - {id}) else start[i]
  }

  lemma NothingUnlinked(nics: Nics, id: int, others: set<int>)
    requires id in nics && others == {}
    ensures Unlinked(nics, nics, id, others)
  {
  }

  lemma ForgetDone(start: Nics, id: int, others: set<int>, nics: Nics)
    requires Unlinked(start, nics, id, others)
    ensures nics - {id} == Forget(start, id, others)
  {
  }

  lemma RemovedFromGrid(w: World, nics: Nics, grid: map<Cell, set<int>>, id: int)
    requires ValidWorld(w) && id in nics && GridHolds(w, nics, grid) && InGrid(GridDim(w), CellOf(w, nics[id].pos))
    ensures var cell := CellOf(w, nics[id].pos);
      && cell in grid
      && forall others :: GridHolds(w, Forget(nics, id, others), grid[cell := grid[cell] - {id}])
  {
    hide CellOf, GridDim;
  }

  lemma UnregisterIsForget(w: World, nics: Nics, id: int)
    requires ValidWorld(w) && id in nics
    ensures var n := Neighbours(GridDim(w), w.torus, CellOf(w, nics[id].pos));
      Forget(nics, id, Within(w, nics, n + n)) == Unregister(w, nics, id)
  {
    hide CellOf, GridDim;
    var n := Neighbours(GridDim(w), w.torus, CellOf(w, nics[id].pos));
    assert n + n == n;
  }

  lemma ForgetPlaced(w: World, nics: Nics, id: int, others: set<int>)
    requires Placed(w, nics)
    ensures Placed(w, Forget(nics, id, others))
  {
    hide InPlayground;
  }
}
