/**
 Who is linked to whom. Each operation of the connection manager relinks one NIC with the NICs of a few
 cells; the theorem is that this keeps every link, after any run, equal to the all-pairs definition.
 */
module Connections {
  import opened Wrappers
  import opened GridGeometry

  /** A registered NIC: where it is and which NICs it has an outgoing link to. */
  datatype Nic = Nic(pos: Coord, links: set<int>)

  type Nics = map<int, Nic>

  /** The NICs whose position lies in one of the cells. */
  function Within(w: World, nics: Nics, cells: set<Cell>): set<int>
    requires ValidWorld(w)
  {
    set i | i in nics && CellOf(w, nics[i].pos) in cells
  }

  /** The cells searched around a position. */
  function Around(w: World, p: Coord): set<Cell>
    requires ValidWorld(w)
  {
    Neighbours(GridDim(w), w.torus, CellOf(w, p))
  }

  /** Link `id` with those of `others` that are in range of it, unlink it from the rest of them. */
  function Relink(w: World, nics: Nics, id: int, others: set<int>): Nics
    requires id in nics
  {
    map i | i in nics ::
      if i == id then
        nics[id].(links := (nics[id].links - others)
                         + (set j | j in others && j in nics && j != id && InRange(w, nics[id].pos, nics[j].pos)))
      else if i !in others then nics[i]
      else if InRange(w, nics[id].pos, nics[i].pos) then nics[i].(links := nics[i].links + {id})
      else nics[i].(links := nics[i].links - {id})
  }

  /** Unlink `id` from `others` and forget it. */
  function Forget(nics: Nics, id: int, others: set<int>): Nics {
    map i | i in nics && i != id :: if i in others then nics[i].(links := nics[i].links - {id}) else nics[i]
  }

  function Register(w: World, nics: Nics, id: int, pos: Coord): Nics
    requires ValidWorld(w)
  {
    var added := nics[id := Nic(pos, {})];
    Relink(w, added, id, Within(w, added, Around(w, pos)))
  }

  function Move(w: World, nics: Nics, id: int, pos: Coord): Nics
    requires ValidWorld(w) && id in nics
  {
    var moved := nics[id := nics[id].(pos := pos)];
    Relink(w, moved, id, Within(w, moved, Around(w, nics[id].pos) + Around(w, pos)))
  }

  function Unregister(w: World, nics: Nics, id: int): Nics
    requires ValidWorld(w) && id in nics
  {
    Forget(nics, id, Within(w, nics, Around(w, nics[id].pos)))
  }

  datatype Operation =
    | DoRegister(id: int, pos: Coord)
    | DoMove(id: int, pos: Coord)
    | DoUnregister(id: int)

  /** What the program demands: a new id to register, a known one to unregister, positions inside the
      playground. Moving an unknown NIC raises an error and changes nothing. */
  ghost predicate Allowed(w: World, nics: Nics, op: Operation) {
    match op
    case DoRegister(id, pos) => id !in nics && InPlayground(w, pos)
    case DoMove(id, pos) => InPlayground(w, pos)
    case DoUnregister(id) => id in nics
  }

  function Apply(w: World, nics: Nics, op: Operation): Nics
    requires ValidWorld(w)
  {
    match op
    case DoRegister(id, pos) => Register(w, nics, id, pos)
    case DoMove(id, pos) => if id in nics then Move(w, nics, id, pos) else nics
    case DoUnregister(id) => if id in nics then Unregister(w, nics, id) else nics
  }

  function Run(w: World, nics: Nics, ops: seq<Operation>): Nics
    requires ValidWorld(w)
    decreases |ops|
  {
    if ops == [] then nics else Run(w, Apply(w, nics, ops[0]), ops[1..])
  }

  ghost predicate RunAllowed(w: World, nics: Nics, ops: seq<Operation>)
    requires ValidWorld(w)
    decreases |ops|
  {
    ops == [] || (Allowed(w, nics, ops[0]) && RunAllowed(w, Apply(w, nics, ops[0]), ops[1..]))
  }

  /** The all-pairs definition: two distinct registered NICs are linked, both ways, exactly when in range;
      no link leads anywhere else. */
  ghost predicate Exact(w: World, nics: Nics) {
    forall i, j :: i in nics ==>
      (j in nics[i].links <==> j in nics && j != i && InRange(w, nics[i].pos, nics[j].pos))
  }

  ghost predicate Placed(w: World, nics: Nics) {
    forall i :: i in nics ==> InPlayground(w, nics[i].pos)
  }

  lemma TorusAxisSymmetric(p: real, q: real, size: real)
    ensures TorusAxis(p, q, size) == TorusAxis(q, p, size)
  {
    assert Abs(p - q) == Abs(q - p);
    hide Modulo, Abs;
  }

  lemma SameSquare(x: real, y: real)
    requires y == -x
    ensures x * x == y * y
  {
  }

  lemma InRangeSymmetric(w: World, a: Coord, b: Coord)
    ensures InRange(w, a, b) == InRange(w, b, a)
  {
    hide TorusAxis;
    TorusAxisSymmetric(a.x, b.x, w.size.x);
    TorusAxisSymmetric(a.y, b.y, w.size.y);
    TorusAxisSymmetric(a.z, b.z, w.size.z);
    SameSquare(a.x - b.x, b.x - a.x);
    SameSquare(a.y - b.y, b.y - a.y);
    SameSquare(a.z - b.z, b.z - a.z);
  }

  /** Relinking one NIC restores exactness when all others agree and everyone left out is out of range. */
  lemma RelinkExact(w: World, nics: Nics, id: int, others: set<int>)
    requires id in nics && id in others
    requires forall i, j :: i in nics && i != id && j != id ==>
      (j in nics[i].links <==> j in nics && j != i && InRange(w, nics[i].pos, nics[j].pos))
    requires forall i :: i in nics && i !in others ==>
      id !in nics[i].links && i !in nics[id].links && !InRange(w, nics[id].pos, nics[i].pos)
    requires nics[id].links <= nics.Keys
    ensures Exact(w, Relink(w, nics, id, others))
  {
    var r := Relink(w, nics, id, others);
    hide InRange;
    forall i, j | i in r
      ensures j in r[i].links <==> j in r && j != i && InRange(w, r[i].pos, r[j].pos)
    {
      if j in nics {
        InRangeSymmetric(w, nics[i].pos, nics[j].pos);
      }
    }
  }

  lemma OutOfRange(w: World, nics: Nics, p: Coord, cells: set<Cell>, i: int)
    requires ValidWorld(w) && Covers(w) && Placed(w, nics) && InPlayground(w, p)
    requires Around(w, p) <= cells && i in nics && i !in Within(w, nics, cells)
    ensures !InRange(w, p, nics[i].pos) && !InRange(w, nics[i].pos, p)
  {
    InRangeSymmetric(w, p, nics[i].pos);
    hide InRange, Neighbours, CellOf;
  }

  lemma RegisterExact(w: World, nics: Nics, id: int, pos: Coord)
    requires ValidWorld(w) && Covers(w) && Exact(w, nics) && Placed(w, nics) && id !in nics && InPlayground(w, pos)
    ensures Exact(w, Register(w, nics, id, pos)) && Placed(w, Register(w, nics, id, pos))
  {
    hide InRange, Neighbours, CellOf, InPlayground, Covers;
    var added := nics[id := Nic(pos, {})];
    var others := Within(w, added, Around(w, pos));
    OwnCell(w, pos);
    forall i | i in added && i !in others
      ensures !InRange(w, pos, added[i].pos)
    {
      OutOfRange(w, added, pos, Around(w, pos), i);
    }
    RelinkExact(w, added, id, others);
  }

  /** A position is searched from itself. */
  lemma OwnCell(w: World, p: Coord)
    requires ValidWorld(w) && Covers(w) && InPlayground(w, p)
    ensures CellOf(w, p) in Around(w, p)
  {
    assert SquaredDistance(w, p, p) == 0.0 by {
      TorusAxisOfSame(p.x, w.size.x);
      TorusAxisOfSame(p.y, w.size.y);
      TorusAxisOfSame(p.z, w.size.z);
    }
    assert w.maxDistance * w.maxDistance >= 0.0;
    assert InRange(w, p, p);
  }

  lemma MoveExact(w: World, nics: Nics, id: int, pos: Coord)
    requires ValidWorld(w) && Covers(w) && Exact(w, nics) && Placed(w, nics) && id in nics && InPlayground(w, pos)
    ensures Exact(w, Move(w, nics, id, pos)) && Placed(w, Move(w, nics, id, pos))
  {
    hide InRange, Neighbours, CellOf, InPlayground, Covers;
    var was := nics[id].pos;
    var moved := nics[id := nics[id].(pos := pos)];
    var cells := Around(w, was) + Around(w, pos);
    var others := Within(w, moved, cells);
    assert forall j :: j in nics[id].links ==> j in nics;
    assert nics.Keys == moved.Keys;
    OwnCell(w, pos);
    forall i | i in moved && i !in others
      ensures !InRange(w, pos, moved[i].pos) && !InRange(w, was, moved[i].pos) && !InRange(w, moved[i].pos, was)
    {
      OutOfRange(w, moved, pos, cells, i);
      OutOfRange(w, moved, was, cells, i);
    }
    RelinkExact(w, moved, id, others);
  }

  lemma UnregisterExact(w: World, nics: Nics, id: int)
    requires ValidWorld(w) && Covers(w) && Exact(w, nics) && Placed(w, nics) && id in nics
    ensures Exact(w, Unregister(w, nics, id)) && Placed(w, Unregister(w, nics, id))
  {
    hide InRange, Neighbours, CellOf, InPlayground, Covers;
    var p := nics[id].pos;
    var others := Within(w, nics, Around(w, p));
    forall i | i in nics && i !in others
      ensures id !in nics[i].links
    {
      OutOfRange(w, nics, p, Around(w, p), i);
    }
  }

  /** After any run of registrations, moves and removals inside the playground, the links the grid search
      maintains are exactly those of the all-pairs definition. */
  lemma {:induction false} RunExact(w: World, nics: Nics, ops: seq<Operation>)
    requires ValidWorld(w) && Covers(w) && Exact(w, nics) && Placed(w, nics) && RunAllowed(w, nics, ops)
    ensures Exact(w, Run(w, nics, ops)) && Placed(w, Run(w, nics, ops))
    decreases |ops|
  {
    hide Exact, Placed, Covers, Register, Move, Unregister;
    if ops != [] {
      match ops[0] {
        case DoRegister(id, pos) => RegisterExact(w, nics, id, pos);
        case DoMove(id, pos) => if id in nics { MoveExact(w, nics, id, pos); }
        case DoUnregister(id) => UnregisterExact(w, nics, id);
      }
      RunExact(w, Apply(w, nics, ops[0]), ops[1..]);
    }
  }

  /** Without the slack two registrations already go wrong: the NICs are in range and not linked. */
  lemma TwoRegistrationsMissed(w: World) returns (ops: seq<Operation>)
    requires ValidWorld(w) && GridFits(w) && w.torus && !Slack(w)
    ensures RunAllowed(w, map[], ops) && !Exact(w, Run(w, map[], ops))
  {
    hide InRange, Neighbours, CellOf, InPlayground, GridFits, Slack;
    var a, b := MissedPair(w);
    ops := [DoRegister(1, b), DoRegister(2, a)];
    var one := Register(w, map[], 1, b);
    var two := Register(w, one, 2, a);
    assert ops[1..] == [DoRegister(2, a)] && ops[1..][1..] == [];
    assert Run(w, two, []) == two && Run(w, one, ops[1..]) == two;
    assert RunAllowed(w, two, []);
    assert one.Keys == {1} && one[1].pos == b;
    assert RunAllowed(w, one, ops[1..]);
    var added := one[2 := Nic(a, {})];
    assert 1 !in Within(w, added, Around(w, a));
    assert 1 !in two[2].links && two[2].pos == a && two[1].pos == b;
  }

  /** The grid agrees with the all-pairs definition on every run exactly when the playground is plain or
      leaves the slack. */
  lemma GridEqualsBruteForce(w: World)
    requires ValidWorld(w) && GridFits(w)
    ensures (forall ops :: RunAllowed(w, map[], ops) ==> Exact(w, Run(w, map[], ops))) <==> (w.torus ==> Slack(w))
  {
    hide GridFits, Slack, Run, Exact;
    if w.torus ==> Slack(w) {
      CoversIfSlack(w);
      forall ops | RunAllowed(w, map[], ops)
        ensures Exact(w, Run(w, map[], ops))
      {
        EmptyExact(w);
        RunExact(w, map[], ops);
      }
    } else {
      var ops := TwoRegistrationsMissed(w);
    }
  }

  lemma EmptyExact(w: World)
    ensures Exact(w, map[]) && Placed(w, map[])
  {
  }

  /** Links are mutual and lead to other registered NICs. */
  ghost predicate Mutual(nics: Nics) {
    forall i, j :: i in nics && j in nics[i].links ==> j in nics && j != i && i in nics[j].links
  }

  lemma ExactIsMutual(w: World, nics: Nics)
    requires Exact(w, nics)
    ensures Mutual(nics)
  {
    hide InRange;
    forall i, j | i in nics && j in nics[i].links
      ensures j in nics && j != i && i in nics[j].links
    {
      assert j in nics;
      InRangeSymmetric(w, nics[i].pos, nics[j].pos);
    }
  }

  // ---- Where the NICs are ----

  /** Where a NIC is after the operations: where it was last put, unless it is gone or was never registered. */
  function PlaceOf(ops: seq<Operation>, id: int): Option<Coord> {
    if ops == [] then None else
      var before := PlaceOf(ops[..|ops| - 1], id);
      match ops[|ops| - 1]
      case DoRegister(i, pos) => if i == id then Some(pos) else before
      case DoMove(i, pos) => if i == id && before.Some? then Some(pos) else before
      case DoUnregister(i) => if i == id then None else before
  }

  lemma {:induction false} RunAppend(w: World, nics: Nics, ops: seq<Operation>, op: Operation)
    requires ValidWorld(w)
    ensures Run(w, nics, ops + [op]) == Apply(w, Run(w, nics, ops), op)
    ensures RunAllowed(w, nics, ops + [op]) ==> RunAllowed(w, nics, ops)
    decreases |ops|
  {
    hide Apply, Allowed;
    if ops == [] {
      assert [] + [op] == [op] && [op][1..] == [];
      assert Run(w, nics, [op]) == Run(w, Apply(w, nics, op), []);
    } else {
      assert (ops + [op])[0] == ops[0] && (ops + [op])[1..] == ops[1..] + [op];
      RunAppend(w, Apply(w, nics, ops[0]), ops[1..], op);
    }
  }

  lemma ApplyPlaces(w: World, nics: Nics, op: Operation, i: int)
    requires ValidWorld(w)
    ensures var r := Apply(w, nics, op);
      match op
      case DoRegister(id, pos) => (i in r <==> i == id || i in nics) && (i in r ==> r[i].pos == if i == id then pos else nics[i].pos)
      case DoMove(id, pos) => (i in r <==> i in nics) && (i in r ==> r[i].pos == if i == id then pos else nics[i].pos)
      case DoUnregister(id) => (i in r <==> i != id && i in nics) && (i in r ==> r[i].pos == nics[i].pos)
  {
    hide Within, Around, InRange;
  }

  lemma {:induction false} PlacesAfterRun(w: World, ops: seq<Operation>, id: int)
    requires ValidWorld(w)
    ensures var r := Run(w, map[], ops);
      (id in r <==> PlaceOf(ops, id).Some?) && (id in r ==> r[id].pos == PlaceOf(ops, id).value)
    decreases |ops|
  {
    hide Apply, RunAllowed;
    if ops != [] {
      var n := |ops| - 1;
      assert ops == ops[..n] + [ops[n]];
      RunAppend(w, map[], ops[..n], ops[n]);
      PlacesAfterRun(w, ops[..n], id);
      ApplyPlaces(w, Run(w, map[], ops[..n]), ops[n], id);
    }
  }

  /** So the links after a run follow from the operations alone: who is where, and who is in range of whom. */
  lemma LinksFromOperations(w: World, ops: seq<Operation>, i: int, j: int)
    requires ValidWorld(w) && GridFits(w) && (w.torus ==> Slack(w)) && RunAllowed(w, map[], ops)
    ensures var r := Run(w, map[], ops);
      && (i in r <==> PlaceOf(ops, i).Some?)
      && (i in r ==> (j in r[i].links <==> j != i && PlaceOf(ops, j).Some? && InRange(w, PlaceOf(ops, i).value, PlaceOf(ops, j).value)))
  {
    GridEqualsBruteForce(w);
    PlacesAfterRun(w, ops, i);
    PlacesAfterRun(w, ops, j);
    hide Run, RunAllowed, PlaceOf, InRange, GridFits, Slack;
    assert Exact(w, Run(w, map[], ops));
  }
}
