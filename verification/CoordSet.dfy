/** The hash set of grid cells: open addressing in steps of two, and an iterator that runs once. */
module CoordSet {
  import opened GridGeometry

  const SLOTS := 74

  datatype Slot = Free | Taken(cell: Cell)

  /** The hash: a C++ int converted to unsigned before the remainder is taken. */
  function Hash(c: Cell, maxSize: int): (h: int)
    requires maxSize > 0
    ensures 0 <= h < maxSize
  {
    ((c.x * 10000 + c.y * 100 + c.z) % 0x1_0000_0000) % maxSize
  }

  /** The slot tried after `k` collisions. */
  function Probe(start: int, k: nat, maxSize: int): (i: int)
    requires 0 <= start < maxSize
    ensures 0 <= i < maxSize
  {
    if k == 0 then start else (Probe(start, k - 1, maxSize) + 2) % maxSize
  }

  ghost predicate Found(slots: seq<Slot>, c: Cell, k: nat)
    requires |slots| > 0
  {
    var i := Probe(Hash(c, |slots|), k, |slots|);
    slots[i] == Free || slots[i] == Taken(c)
  }

  /** Probing for `c` reaches a free slot or `c` itself. */
  ghost predicate HasRoom(slots: seq<Slot>, c: Cell)
    requires |slots| > 0
  {
    exists k: nat :: Found(slots, c, k)
  }

  ghost function Elements(slots: seq<Slot>): set<Cell> {
    set i | 0 <= i < |slots| && slots[i].Taken? :: slots[i].cell
  }

  /** `k` collisions lead from the cell's hash to the slot `i`, over slots taken by other cells. */
  ghost predicate ReachedBy(slots: seq<Slot>, i: int, k: nat)
    requires 0 <= i < |slots| && slots[i].Taken?
  {
    var h := Hash(slots[i].cell, |slots|);
    && Probe(h, k, |slots|) == i
    && forall j: nat :: j < k ==> slots[Probe(h, j, |slots|)].Taken? && Probe(h, j, |slots|) != i
  }

  /** Every stored cell is where probing for it ends, and stored once. */
  ghost predicate ValidSlots(slots: seq<Slot>) {
    && |slots| > 0
    && (forall i :: 0 <= i < |slots| && slots[i].Taken? ==> exists k: nat :: ReachedBy(slots, i, k))
    && (forall i, j :: 0 <= i < j < |slots| && slots[i].Taken? && slots[j].Taken? ==> slots[i].cell != slots[j].cell)
  }

  /** If the first `k` probes for `c` meet other cells and the next a free slot, `c` is not stored. */
  lemma NotStored(slots: seq<Slot>, c: Cell, k: nat)
    requires ValidSlots(slots)
    requires forall j: nat :: j < k ==> !Found(slots, c, j)
    requires slots[Probe(Hash(c, |slots|), k, |slots|)] == Free
    ensures c !in Elements(slots)
  {
    if c in Elements(slots) {
      var i :| 0 <= i < |slots| && slots[i] == Taken(c);
      var m: nat :| ReachedBy(slots, i, m);
      assert Found(slots, c, m);
    }
  }

  lemma StoreKeepsValid(slots: seq<Slot>, c: Cell, k: nat)
    requires ValidSlots(slots)
    requires forall j: nat :: j < k ==> !Found(slots, c, j)
    requires slots[Probe(Hash(c, |slots|), k, |slots|)] == Free
    ensures var i := Probe(Hash(c, |slots|), k, |slots|);
      ValidSlots(slots[i := Taken(c)]) && Elements(slots[i := Taken(c)]) == Elements(slots) + {c}
  {
    var n, h := |slots|, Hash(c, |slots|);
    var i := Probe(h, k, n);
    var r := slots[i := Taken(c)];
    NotStored(slots, c, k);
    forall m | 0 <= m < n && r[m].Taken?
      ensures exists j: nat :: ReachedBy(r, m, j)
    {
      if m == i {
        forall j: nat | j < k
          ensures r[Probe(h, j, n)].Taken? && Probe(h, j, n) != i
        {
          assert !Found(slots, c, j);
        }
        assert ReachedBy(r, i, k);
      } else {
        var j: nat :| ReachedBy(slots, m, j);
        assert ReachedBy(r, m, j);
      }
    }
    forall e | e in Elements(slots) + {c}
      ensures e in Elements(r)
    {
      if e == c {
        assert r[i] == Taken(c);
      } else {
        var m :| 0 <= m < n && slots[m] == Taken(e);
        assert r[m] == Taken(e);
      }
    }
  }

  // ---- How many neighbours can collide ----

  lemma {:induction false} ProbeClosed(start: int, k: nat)
    requires 0 <= start < SLOTS
    ensures Probe(start, k, SLOTS) == (start + 2 * k) % SLOTS
  {
    if k > 0 {
      ProbeClosed(start, k - 1);
      TwoFurther(start + 2 * (k - 1));
    }
  }

  lemma TwoFurther(v: int)
    ensures (v % 74 + 2) % 74 == (v + 2) % 74
  {
  }

  /** The slots tried from a start: every second one, in one parity class of 37. */
  lemma ProbeParity(start: int, k: nat)
    requires 0 <= start < SLOTS
    ensures Probe(start, k, SLOTS) % 2 == start % 2
  {
    ProbeClosed(start, k);
  }

  lemma ProbesDistinct(start: int, j: nat, k: nat)
    requires 0 <= start < SLOTS && j < k < 37
    ensures Probe(start, j, SLOTS) != Probe(start, k, SLOTS)
  {
    ProbeClosed(start, j);
    ProbeClosed(start, k);
  }

  lemma HashParity(c: Cell)
    ensures 0 <= Hash(c, SLOTS) < SLOTS && Hash(c, SLOTS) % 2 == c.z % 2
  {
    var half := c.x * 5000 + c.y * 50;
    var v := 2 * half + c.z;
    EvenShift(half, c.z);
    EvenShift(0x8000_0000 * (v / 0x1_0000_0000), v % 0x1_0000_0000);
    RemainderParity(v % 0x1_0000_0000);
  }

  lemma EvenShift(half: int, z: int)
    ensures (2 * half + z) % 2 == z % 2
  {
  }

  lemma RemainderParity(v: int)
    ensures 0 <= v % 74 < 74 && (v % 74) % 2 == v % 2
  {
    EvenShift(37 * (v / 74), v % 74);
  }

  /** A stored cell lies in the parity class of its z coordinate. */
  lemma SlotParity(slots: seq<Slot>, i: int)
    requires ValidSlots(slots) && |slots| == SLOTS && 0 <= i < SLOTS && slots[i].Taken?
    ensures slots[i].cell.z % 2 == i % 2
  {
    var k: nat :| ReachedBy(slots, i, k);
    HashParity(slots[i].cell);
    ProbeParity(Hash(slots[i].cell, SLOTS), k);
  }

  ghost function OfParity(cells: set<Cell>, p: int): set<Cell> {
    set c | c in cells && c.z % 2 == p
  }

  /** The cells in the first `n` slots tried from `start`, when all are taken. */
  ghost function Probed(slots: seq<Slot>, start: int, n: nat): set<Cell>
    requires |slots| == SLOTS && 0 <= start < SLOTS
    requires forall k: nat :: k < n ==> slots[Probe(start, k, SLOTS)].Taken?
  {
    set k: nat | k < n :: slots[Probe(start, k, SLOTS)].cell
  }

  lemma StoredOnce(slots: seq<Slot>, i: int, j: int)
    requires ValidSlots(slots) && 0 <= i < |slots| && 0 <= j < |slots| && slots[i].Taken? && slots[j].Taken?
    ensures slots[i].cell == slots[j].cell ==> i == j
  {
  }

  lemma {:induction false} ProbedCount(slots: seq<Slot>, start: int, n: nat)
    requires ValidSlots(slots) && |slots| == SLOTS && 0 <= start < SLOTS && n <= 37
    requires forall k: nat :: k < n ==> slots[Probe(start, k, SLOTS)].Taken?
    ensures |Probed(slots, start, n)| == n
  {
    hide Probe, ValidSlots;
    if n > 0 {
      ProbedCount(slots, start, n - 1);
      var last := slots[Probe(start, n - 1, SLOTS)].cell;
      if last in Probed(slots, start, n - 1) {
        var k: nat :| k < n - 1 && slots[Probe(start, k, SLOTS)].cell == last;
        ProbesDistinct(start, k, n - 1);
        StoredOnce(slots, Probe(start, k, SLOTS), Probe(start, n - 1, SLOTS));
      }
      assert Probed(slots, start, n) == Probed(slots, start, n - 1) + {last};
    }
  }

  lemma SubsetSize<T>(a: set<T>, b: set<T>)
    requires a <= b
    ensures |a| <= |b|
  {
    assert b == a + (b - a);
  }

  /** The cells with coordinates from three sets. */
  ghost function Block(xs: set<int>, ys: set<int>, zs: set<int>): set<Cell> {
    set x, y, z | x in xs && y in ys && z in zs :: Cell(x, y, z)
  }

  lemma {:induction false} BlockSizeZ(x: int, y: int, zs: set<int>)
    ensures |Block({x}, {y}, zs)| <= |zs|
    decreases zs
  {
    if z :| z in zs {
      BlockSizeZ(x, y, zs - {z});
      assert Block({x}, {y}, zs) == Block({x}, {y}, zs - {z}) + {Cell(x, y, z)};
    } else {
      assert Block({x}, {y}, zs) == {};
    }
  }

  lemma {:induction false} BlockSizeY(x: int, ys: set<int>, zs: set<int>)
    ensures |Block({x}, ys, zs)| <= |ys| * |zs|
    decreases ys
  {
    if y :| y in ys {
      BlockSizeY(x, ys - {y}, zs);
      BlockSizeZ(x, y, zs);
      assert Block({x}, ys, zs) == Block({x}, ys - {y}, zs) + Block({x}, {y}, zs);
      OneMore(|ys - {y}|, |zs|);
      assert |ys| == |ys - {y}| + 1;
    } else {
      assert Block({x}, ys, zs) == {};
    }
  }

  lemma OneMore(n: int, m: int)
    ensures (n + 1) * m == n * m + m
  {
  }

  lemma {:induction false} BlockSize(xs: set<int>, ys: set<int>, zs: set<int>, layer: nat)
    requires |ys| * |zs| == layer
    ensures |Block(xs, ys, zs)| <= |xs| * layer
    decreases xs
  {
    if x :| x in xs {
      BlockSize(xs - {x}, ys, zs, layer);
      BlockSizeY(x, ys, zs);
      BlockSplit(xs, x, ys, zs);
      OneMore(|xs - {x}|, layer);
      assert |xs| == |xs - {x}| + 1;
    } else {
      assert Block(xs, ys, zs) == {};
    }
  }

  lemma BlockSplit(xs: set<int>, x: int, ys: set<int>, zs: set<int>)
    requires x in xs
    ensures |Block(xs, ys, zs)| <= |Block(xs - {x}, ys, zs)| + |Block({x}, ys, zs)|
  {
    assert Block(xs, ys, zs) == Block(xs - {x}, ys, zs) + Block({x}, ys, zs);
  }

  lemma AxisNearSize(i: int, n: int, torus: bool)
    ensures |AxisNear(i, n, torus)| <= 3
  {
    SubsetSize(AxisNear(i, n, torus),
               {WrapIfTorus(i - 1, n, torus), WrapIfTorus(i, n, torus), WrapIfTorus(i + 1, n, torus)});
  }

  ghost function WithParity(ks: set<int>, p: int): set<int> {
    set k | k in ks && k % 2 == p
  }

  /** Of three neighbouring indices at most two are distinct and of one parity, wrapped or not. */
  lemma AxisNearParity(i: int, n: int, torus: bool, p: int)
    requires 0 <= i < n
    ensures |WithParity(AxisNear(i, n, torus), p)| <= 2
  {
    var a, b := WrapIfTorus(i - 1, n, torus), WrapIfTorus(i + 1, n, torus);
    var ks := WithParity(AxisNear(i, n, torus), p);
    if i % 2 != p {
      SubsetSize(ks, {a, b});
    } else if i > 0 {
      SubsetSize(ks, {i, b});
    } else if i + 1 < n {
      SubsetSize(ks, {i, a});
    } else {
      SubsetSize(ks, {0});
    }
  }

  /** At most 18 neighbours of a cell have a z coordinate of one parity. */
  lemma NeighbourParity(dim: Cell, torus: bool, c: Cell, p: int)
    requires InGrid(dim, c)
    ensures |OfParity(Neighbours(dim, torus, c), p)| <= 18
  {
    var xs, ys := AxisNear(c.x, dim.x, torus), AxisNear(c.y, dim.y, torus);
    var zs := WithParity(AxisNear(c.z, dim.z, torus), p);
    assert OfParity(Neighbours(dim, torus, c), p) == Block(xs, ys, zs);
    AxisNearSize(c.x, dim.x, torus);
    AxisNearSize(c.y, dim.y, torus);
    AxisNearParity(c.z, dim.z, torus, p);
    BlockSize(xs, ys, zs, |ys| * |zs|);
    ProductBound(|xs|, |ys|, |zs|);
  }

  lemma ProductBound(x: nat, y: nat, z: nat)
    requires x <= 3 && y <= 3 && z <= 2
    ensures x * (y * z) <= 18
  {
    assert y * z <= 3 * z;
    assert x * (y * z) <= 3 * (y * z);
  }

  /** 74 slots are enough: while the set holds neighbours of at most two cells, probing for any neighbour
      of them ends at it or at a free slot, within 37 tries. */
  lemma SlotsSuffice(slots: seq<Slot>, dim: Cell, torus: bool, a: Cell, b: Cell, c: Cell)
    requires ValidSlots(slots) && |slots| == SLOTS && InGrid(dim, a) && InGrid(dim, b)
    requires Elements(slots) <= Neighbours(dim, torus, a) + Neighbours(dim, torus, b)
    ensures HasRoom(slots, c) && exists k: nat :: k < 37 && Found(slots, c, k)
  {
    if forall k: nat :: k < 37 ==> !Found(slots, c, k) {
      FullClass(slots, c);
      var p := c.z % 2;
      var na, nb := OfParity(Neighbours(dim, torus, a), p), OfParity(Neighbours(dim, torus, b), p);
      NeighbourParity(dim, torus, a, p);
      NeighbourParity(dim, torus, b, p);
      assert |na + nb| <= 36;
      SubsetSize(OfParity(Elements(slots), p), na + nb);
    }
  }

  /** If 37 probes meet only other cells, the set holds 37 cells of one parity. */
  lemma FullClass(slots: seq<Slot>, c: Cell)
    requires ValidSlots(slots) && |slots| == SLOTS
    requires forall k: nat :: k < 37 ==> !Found(slots, c, k)
    ensures |OfParity(Elements(slots), c.z % 2)| >= 37
  {
    var h := Hash(c, SLOTS);
    HashParity(c);
    forall k: nat | k < 37
      ensures slots[Probe(h, k, SLOTS)].Taken? && slots[Probe(h, k, SLOTS)].cell.z % 2 == c.z % 2
    {
      assert !Found(slots, c, k);
      ProbeParity(h, k);
      SlotParity(slots, Probe(h, k, SLOTS));
    }
    hide Hash, Probe;
    ProbedCount(slots, h, 37);
    SubsetSize(Probed(slots, h, 37), OfParity(Elements(slots), c.z % 2));
  }

  // ---- The set itself ----

  /** The cells the iterator has not returned yet. */
  ghost function From(slots: seq<Slot>, current: nat): set<Cell> {
    set i | current <= i < |slots| && slots[i].Taken? :: slots[i].cell
  }

  class CoordSet {
    const data: array<Slot>
    var size: nat
    var current: nat

    ghost predicate Valid()
      reads this, data
    {
      ValidSlots(data[..]) && current <= data.Length && size == |Elements(data[..])|
    }

    ghost function Cells(): set<Cell>
      reads data
    {
      Elements(data[..])
    }

    ghost function Pending(): set<Cell>
      reads this, data
    {
      From(data[..], current)
    }

    constructor (sz: nat)
      requires sz > 0
      ensures Valid() && fresh(data) && data.Length == sz
      ensures Cells() == {} && current == 0
    {
      data := new Slot[sz](_ => Free);
      size, current := 0, 0;
      new;
      assert Elements(data[..]) == {};
    }

    method Store(c: Cell, pos: int, ghost k: nat)
      requires Valid() && pos == Probe(Hash(c, data.Length), k, data.Length) && data[pos] == Free
      requires forall j: nat :: j < k ==> !Found(data[..], c, j)
      modifies data, this`size
      ensures Valid() && Cells() == old(Cells()) + {c}
    {
      hide Probe, Hash, ValidSlots, Found;
      ghost var before := data[..];
      StoreKeepsValid(before, c, k);
      NotStored(before, c, k);
      data[pos] := Taken(c);
      size := size + 1;
      assert data[..] == before[pos := Taken(c)];
    }

    /** insert: take the slot if it is free, stop if it holds `c`, otherwise try two slots further. */
    method Insert(c: Cell, pos: int, ghost k: nat, ghost last: nat)
      requires Valid() && k <= last && Found(data[..], c, last)
      requires pos == Probe(Hash(c, data.Length), k, data.Length)
      requires forall j: nat :: j < k ==> !Found(data[..], c, j)
      modifies data, this`size
      ensures Valid() && Cells() == old(Cells()) + {c}
      decreases last - k
    {
      assert Found(data[..], c, k) <==> data[pos] == Free || data[pos] == Taken(c);
      if data[pos] == Free {
        Store(c, pos, k);
      } else if data[pos] != Taken(c) {
        assert Probe(Hash(c, data.Length), k + 1, data.Length) == (pos + 2) % data.Length;
        hide Probe, Hash, ValidSlots, Found;
        Insert(c, (pos + 2) % data.Length, k + 1, last);
      } else {
        assert data[..][pos] == Taken(c);
      }
    }

    /** Add a cell; probing must have room for it. */
    method Add(c: Cell)
      requires Valid() && HasRoom(data[..], c)
      modifies data, this`size
      ensures Valid() && Cells() == old(Cells()) + {c}
    {
      ghost var last: nat :| Found(data[..], c, last);
      var hash := Hash(c, data.Length);
      Insert(c, hash, 0, last);
    }

    /** The next stored cell, or Free once all have been returned. Runs through the set once. */
    method Next() returns (r: Slot)
      requires Valid()
      modifies this`current
      ensures Valid() && old(current) <= current
      ensures r == Free ==> old(Pending()) == Pending() == {}
      ensures r.Taken? ==> r.cell in old(Pending()) && Pending() == old(Pending()) - {r.cell}
      ensures r.Taken? ==> old(current) < current
    {
      while current < data.Length
        invariant current <= data.Length && old(current) <= current && Pending() == old(Pending())
      {
        if data[current] != Free {
          r := data[current];
          assert From(data[..], current) == From(data[..], current + 1) + {r.cell};
          current := current + 1;
          return;
        }
        assert From(data[..], current) == From(data[..], current + 1);
        current := current + 1;
      }
      r := Free;
    }
  }
}
