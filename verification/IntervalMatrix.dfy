/** Air frames keyed by end time, and the iterator that walks the ones meeting an interval and may erase them. */
module IntervalMatrix {
  import opened Wrappers

  /** Two air frames are different objects exactly when their ids differ. */
  datatype AirFrame = AirFrame(id: nat, duration: nat)

  datatype Entry = Entry(start: int, frame: AirFrame) {
    function End(): int { start + frame.duration }
  }

  /** One entry of the map: the frames ending at `end`, oldest first. */
  datatype Bucket = Bucket(end: int, entries: seq<Entry>)

  /** The closed intervals of `e` and `[from, to]` have an instant in common. */
  predicate Meets(e: Entry, from: int, to: int) {
    from <= e.End() && e.start <= to
  }

  ghost predicate ValidMatrix(bs: seq<Bucket>) {
    && (forall i, j :: 0 <= i < j < |bs| ==> bs[i].end < bs[j].end)
    && (forall i :: 0 <= i < |bs| ==> bs[i].entries != [])
    && (forall i, j :: 0 <= i < |bs| && 0 <= j < |bs[i].entries| ==> bs[i].entries[j].End() == bs[i].end)
  }

  function Flat(bs: seq<Bucket>): seq<Entry> {
    if bs == [] then [] else bs[0].entries + Flat(bs[1..])
  }

  /** What stands before slot `j` of bucket `i`. */
  function Before(bs: seq<Bucket>, i: nat, j: nat): seq<Entry>
    requires i <= |bs| && (i < |bs| ==> j <= |bs[i].entries|)
  {
    Flat(bs[..i]) + if i < |bs| then bs[i].entries[..j] else []
  }

  /** What stands at or after slot `j` of bucket `i`. */
  function After(bs: seq<Bucket>, i: nat, j: nat): seq<Entry>
    requires i <= |bs| && (i < |bs| ==> j <= |bs[i].entries|)
  {
    if i < |bs| then bs[i].entries[j..] + Flat(bs[i + 1..]) else []
  }

  function Keep(es: seq<Entry>, p: Entry -> bool): (r: seq<Entry>)
    ensures forall e :: e in r <==> e in es && p(e)
  {
    if es == [] then [] else
      var rest := Keep(es[1..], p);
      if p(es[0]) then [es[0]] + rest else rest
  }

  ghost predicate Distinct(es: seq<Entry>) {
    forall i, j :: 0 <= i < j < |es| ==> es[i].frame != es[j].frame
  }

  lemma {:induction false} KeepConcat(a: seq<Entry>, b: seq<Entry>, p: Entry -> bool)
    ensures Keep(a + b, p) == Keep(a, p) + Keep(b, p)
  {
    if a == [] {
      assert a + b == b;
    } else {
      assert (a + b)[1..] == a[1..] + b;
      KeepConcat(a[1..], b, p);
    }
  }

  lemma {:induction false} KeepAll(es: seq<Entry>, p: Entry -> bool)
    requires forall e :: e in es ==> p(e)
    ensures Keep(es, p) == es
  {
    if es != [] {
      assert es[0] in es;
      assert forall e :: e in es[1..] ==> e in es;
      KeepAll(es[1..], p);
    }
  }

  lemma {:induction false} KeepDistinct(es: seq<Entry>, p: Entry -> bool)
    requires Distinct(es)
    ensures Distinct(Keep(es, p))
  {
    if es != [] {
      var rest := Keep(es[1..], p);
      KeepDistinct(es[1..], p);
      forall j | 0 <= j < |rest|
        ensures rest[j].frame != es[0].frame
      {
        assert rest[j] in es[1..];
      }
    }
  }

  lemma {:induction false} FlatConcat(a: seq<Bucket>, b: seq<Bucket>)
    ensures Flat(a + b) == Flat(a) + Flat(b)
  {
    if a == [] {
      assert a + b == b;
    } else {
      assert (a + b)[1..] == a[1..] + b;
      FlatConcat(a[1..], b);
    }
  }

  lemma FlatEmpty()
    ensures Flat([]) == []
  {
  }

  lemma FlatOne(b: Bucket)
    ensures Flat([b]) == b.entries
  {
    assert [b][1..] == [];
  }

  lemma FlatFrom(bs: seq<Bucket>, i: nat)
    requires i < |bs|
    ensures Flat(bs[i..]) == bs[i].entries + Flat(bs[i + 1..])
  {
    assert bs[i..][1..] == bs[i + 1..];
  }

  lemma FlatTo(bs: seq<Bucket>, i: nat)
    requires i < |bs|
    ensures Flat(bs[..i + 1]) == Flat(bs[..i]) + bs[i].entries
  {
    assert bs[..i + 1] == bs[..i] + [bs[i]];
    FlatConcat(bs[..i], [bs[i]]);
    FlatOne(bs[i]);
  }

  lemma FlatAt(bs: seq<Bucket>, i: nat)
    requires i < |bs|
    ensures Flat(bs) == Flat(bs[..i]) + bs[i].entries + Flat(bs[i + 1..])
  {
    hide Flat;
    assert bs == bs[..i] + bs[i..];
    FlatConcat(bs[..i], bs[i..]);
    FlatFrom(bs, i);
  }

  lemma Split(bs: seq<Bucket>, i: nat, j: nat)
    requires i <= |bs| && (i < |bs| ==> j <= |bs[i].entries|)
    ensures Flat(bs) == Before(bs, i, j) + After(bs, i, j)
  {
    hide Flat;
    if i < |bs| {
      FlatAt(bs, i);
      SplitMiddle(Flat(bs[..i]), bs[i].entries, j, Flat(bs[i + 1..]));
    } else {
      assert bs[..i] == bs;
      assert Flat(bs) + [] + [] == Flat(bs);
    }
  }

  lemma SplitMiddle(a: seq<Entry>, b: seq<Entry>, j: nat, c: seq<Entry>)
    requires j <= |b|
    ensures a + b + c == (a + b[..j]) + (b[j..] + c)
  {
    assert b == b[..j] + b[j..];
  }

  /** Stepping from the end of one bucket to the beginning of the next passes nothing. */
  lemma NextBucket(bs: seq<Bucket>, i: nat)
    requires i < |bs|
    ensures Before(bs, i, |bs[i].entries|) == Before(bs, i + 1, 0)
    ensures After(bs, i, |bs[i].entries|) == After(bs, i + 1, 0)
  {
    hide Flat;
    FlatTo(bs, i);
    if i + 1 < |bs| {
      FlatFrom(bs, i + 1);
      assert bs[i + 1].entries[0..] == bs[i + 1].entries;
    } else {
      assert bs[i + 1..] == [];
      FlatEmpty();
    }
  }

  lemma NextEntry(bs: seq<Bucket>, i: nat, j: nat)
    requires i < |bs| && j < |bs[i].entries|
    ensures Before(bs, i, j + 1) == Before(bs, i, j) + [bs[i].entries[j]]
    ensures After(bs, i, j) == [bs[i].entries[j]] + After(bs, i, j + 1)
  {
    hide Flat;
    MoveOne(Flat(bs[..i]), bs[i].entries, j, Flat(bs[i + 1..]));
  }

  lemma MoveOne(a: seq<Entry>, b: seq<Entry>, j: nat, c: seq<Entry>)
    requires j < |b|
    ensures a + b[..j + 1] == a + b[..j] + [b[j]]
    ensures b[j..] + c == [b[j]] + (b[j + 1..] + c)
  {
    assert b[..j + 1] == b[..j] + [b[j]];
    assert b[j..] == [b[j]] + b[j + 1..];
  }

  lemma {:induction false} FlatEnds(bs: seq<Bucket>, e: Entry)
    requires ValidMatrix(bs)
    requires e in Flat(bs)
    ensures bs != [] && bs[0].end <= e.End() <= bs[|bs| - 1].end
    ensures exists i :: 0 <= i < |bs| && bs[i].end == e.End() && e in bs[i].entries
  {
    if e in bs[0].entries {
      assert bs[0].end == e.End();
    } else {
      FlatEnds(bs[1..], e);
      var i :| 0 <= i < |bs[1..]| && bs[1..][i].end == e.End() && e in bs[1..][i].entries;
      assert bs[i + 1] == bs[1..][i];
    }
  }

  /** The map itself: a field its owner updates in place. */
  class IntervalMap {
    var buckets: seq<Bucket>

    ghost predicate Valid()
      reads this
    {
      ValidMatrix(buckets) && Distinct(Flat(buckets))
    }

    constructor ()
      ensures Valid() && Flat(buckets) == []
    {
      buckets := [];
    }

    /** `map[entry.End()].push_back(entry)`. */
    method PushBack(entry: Entry)
      requires Valid() && forall e :: e in Flat(buckets) ==> e.frame != entry.frame
      modifies this
      ensures Valid()
      ensures forall e :: e in Flat(buckets) <==> e == entry || e in old(Flat(buckets))
    {
      var i := LowerBound(entry.End());
      if i < |buckets| && buckets[i].end == entry.End() {
        FlatAppended(buckets, i, entry);
        buckets := buckets[i := buckets[i].(entries := buckets[i].entries + [entry])];
      } else {
        FlatInserted(buckets, i, entry);
        buckets := buckets[..i] + [Bucket(entry.End(), [entry])] + buckets[i..];
      }
    }

    /** `map.lower_bound(time)`. */
    method LowerBound(time: int) returns (i: nat)
      requires Valid()
      ensures i <= |buckets|
      ensures forall k :: 0 <= k < i ==> buckets[k].end < time
      ensures forall k :: i <= k < |buckets| ==> time <= buckets[k].end
    {
      i := 0;
      while i < |buckets| && buckets[i].end < time
        invariant i <= |buckets|
        invariant forall k :: 0 <= k < i ==> buckets[k].end < time
      {
        i := i + 1;
      }
    }

    /** `deleteAirFrame`: the linear search in the list of its end time. */
    method Delete(entry: Entry)
      requires Valid() && entry in Flat(buckets)
      modifies this
      ensures Valid()
      ensures forall e :: e in Flat(buckets) <==> e != entry && e in old(Flat(buckets))
    {
      var i := LowerBound(entry.End());
      FlatEnds(buckets, entry);
      assert i < |buckets| && buckets[i].end == entry.End() && entry in buckets[i].entries;
      var list := buckets[i].entries;
      var j := 0;
      while j < |list| && list[j] != entry
        invariant 0 <= j <= |list|
        invariant entry !in list[..j]
      {
        j := j + 1;
      }
      assert j < |list|;
      Split(buckets, i, j);
      EraseSlot(buckets, i, j);
      NextEntry(buckets, i, j);
      DistinctRemove(Before(buckets, i, j), After(buckets, i, j + 1), entry);
      buckets := Erased(buckets, i, j);
    }
  }

  lemma FlatAppended(bs: seq<Bucket>, i: nat, x: Entry)
    requires ValidMatrix(bs) && i < |bs| && bs[i].end == x.End()
    requires Distinct(Flat(bs)) && forall e :: e in Flat(bs) ==> e.frame != x.frame
    ensures var r := bs[i := bs[i].(entries := bs[i].entries + [x])];
      ValidMatrix(r) && Distinct(Flat(r)) && forall e :: e in Flat(r) <==> e == x || e in Flat(bs)
  {
    hide Flat, Distinct;
    var r := bs[i := bs[i].(entries := bs[i].entries + [x])];
    assert ValidMatrix(r);
    hide ValidMatrix;
    FlatAt(bs, i);
    FlatAt(r, i);
    assert r[..i] == bs[..i] && r[i + 1..] == bs[i + 1..];
    var a, b := Flat(bs[..i]) + bs[i].entries, Flat(bs[i + 1..]);
    assert Flat(r) == a + [x] + b;
    DistinctInsert(a, b, x);
  }

  lemma InsertedValid(bs: seq<Bucket>, i: nat, x: Entry)
    requires ValidMatrix(bs) && i <= |bs|
    requires forall k :: 0 <= k < i ==> bs[k].end < x.End()
    requires forall k :: i <= k < |bs| ==> x.End() < bs[k].end
    ensures ValidMatrix(bs[..i] + [Bucket(x.End(), [x])] + bs[i..])
  {
    var r := bs[..i] + [Bucket(x.End(), [x])] + bs[i..];
    assert forall k :: 0 <= k < |r| ==> r[k] == if k < i then bs[k] else if k == i then Bucket(x.End(), [x]) else bs[k - 1];
  }

  lemma FlatInserted(bs: seq<Bucket>, i: nat, x: Entry)
    requires ValidMatrix(bs) && i <= |bs|
    requires forall k :: 0 <= k < i ==> bs[k].end < x.End()
    requires forall k :: i <= k < |bs| ==> x.End() < bs[k].end
    requires Distinct(Flat(bs)) && forall e :: e in Flat(bs) ==> e.frame != x.frame
    ensures var r := bs[..i] + [Bucket(x.End(), [x])] + bs[i..];
      ValidMatrix(r) && Distinct(Flat(r)) && forall e :: e in Flat(r) <==> e == x || e in Flat(bs)
  {
    InsertedValid(bs, i, x);
    hide *;
    FlatAround(bs, i, x);
    DistinctInsert(Flat(bs[..i]), Flat(bs[i..]), x);
  }

  lemma FlatAround(bs: seq<Bucket>, i: nat, x: Entry)
    requires i <= |bs|
    ensures Flat(bs) == Flat(bs[..i]) + Flat(bs[i..])
    ensures Flat(bs[..i] + [Bucket(x.End(), [x])] + bs[i..]) == Flat(bs[..i]) + [x] + Flat(bs[i..])
  {
    hide *;
    var bucket := Bucket(x.End(), [x]);
    FlatConcat(bs[..i] + [bucket], bs[i..]);
    FlatConcat(bs[..i], [bucket]);
    FlatOne(bucket);
    assert bs == bs[..i] + bs[i..];
    FlatConcat(bs[..i], bs[i..]);
  }

  lemma DistinctInsert(a: seq<Entry>, b: seq<Entry>, x: Entry)
    requires Distinct(a + b) && forall e :: e in a + b ==> e.frame != x.frame
    ensures Distinct(a + [x] + b)
    ensures forall e :: e in a + [x] + b <==> e == x || e in a + b
  {
    var r := a + [x] + b;
    assert forall k :: 0 <= k < |a| ==> r[k] == (a + b)[k];
    assert forall k :: |a| < k < |r| ==> r[k] == (a + b)[k - 1];
    assert r[|a|] == x;
    assert forall e :: e in a + b ==> e in a || e in b;
  }

  lemma DistinctRemove(a: seq<Entry>, b: seq<Entry>, x: Entry)
    requires Distinct(a + ([x] + b))
    ensures Distinct(a + b)
    ensures forall e :: e in a + b <==> e != x && e in a + ([x] + b)
  {
    var r := a + ([x] + b);
    assert forall k :: 0 <= k < |a| ==> r[k] == (a + b)[k];
    assert forall k :: |a| <= k < |a + b| ==> r[k + 1] == (a + b)[k];
    assert r[|a|] == x;
    assert forall e :: e in a + b ==> e in r && e != x;
  }

  /** The map without slot `j` of bucket `i`; an emptied bucket goes too. */
  function Erased(bs: seq<Bucket>, i: nat, j: nat): seq<Bucket>
    requires i < |bs| && j < |bs[i].entries|
  {
    var list := bs[i].entries[..j] + bs[i].entries[j + 1..];
    if list == [] then bs[..i] + bs[i + 1..] else bs[i := bs[i].(entries := list)]
  }

  lemma EraseSlot(bs: seq<Bucket>, i: nat, j: nat)
    requires ValidMatrix(bs) && i < |bs| && j < |bs[i].entries|
    ensures ValidMatrix(Erased(bs, i, j))
    ensures Flat(Erased(bs, i, j)) == Before(bs, i, j) + After(bs, i, j + 1)
  {
    hide *;
    ErasedValid(bs, i, j);
    ErasedFlat(bs, i, j);
  }

  lemma ErasedValid(bs: seq<Bucket>, i: nat, j: nat)
    requires ValidMatrix(bs) && i < |bs| && j < |bs[i].entries|
    ensures ValidMatrix(Erased(bs, i, j))
  {
    var r := Erased(bs, i, j);
    if |r| < |bs| {
      assert forall k :: 0 <= k < |r| ==> r[k] == if k < i then bs[k] else bs[k + 1];
    }
  }

  lemma ErasedFlat(bs: seq<Bucket>, i: nat, j: nat)
    requires i < |bs| && j < |bs[i].entries|
    ensures Flat(Erased(bs, i, j)) == Before(bs, i, j) + After(bs, i, j + 1)
  {
    hide Flat;
    var before, after := bs[i].entries[..j], bs[i].entries[j + 1..];
    var r := Erased(bs, i, j);
    if before + after == [] {
      FlatConcat(bs[..i], bs[i + 1..]);
      assert before == [] && after == [];
    } else {
      FlatAt(r, i);
      assert r[..i] == bs[..i] && r[i + 1..] == bs[i + 1..];
    }
    Regroup(Flat(bs[..i]), before, after, Flat(bs[i + 1..]));
  }

  lemma Regroup(a: seq<Entry>, b: seq<Entry>, c: seq<Entry>, d: seq<Entry>)
    ensures a + (b + c) + d == (a + b) + (c + d)
    ensures b == [] && c == [] ==> a + d == (a + b) + (c + d)
  {
  }

  /** The place is a slot of the map, or the end of it, and what follows ends late enough. */
  ghost predicate Placed(bs: seq<Bucket>, i: nat, j: nat, from: int) {
    && ValidMatrix(bs)
    && i <= |bs|
    && (i < |bs| ==> j < |bs[i].entries|)
    && forall k :: i <= k < |bs| ==> from <= bs[k].end
  }

  lemma ErasedPlaced(bs: seq<Bucket>, i: nat, j: nat, from: int)
    requires Placed(bs, i, j, from) && i < |bs|
    ensures var r, list := Erased(bs, i, j), bs[i].entries[..j] + bs[i].entries[j + 1..];
      var i', j' := if j < |list| || list == [] then i else i + 1, if j < |list| then j else 0;
      Placed(r, i', j', from)
  {
    EraseSlot(bs, i, j);
  }

  /** Where the walk stands after the slot is gone: nothing before it or behind it has moved. */
  lemma ErasedAround(bs: seq<Bucket>, i: nat, j: nat)
    requires i < |bs| && j < |bs[i].entries|
    ensures var r, list := Erased(bs, i, j), bs[i].entries[..j] + bs[i].entries[j + 1..];
      var i', j' := if j < |list| || list == [] then i else i + 1, if j < |list| then j else 0;
      && (i' < |r| ==> j' <= |r[i'].entries|)
      && Before(r, i', j') == Before(bs, i, j)
      && After(r, i', j') == After(bs, i, j + 1)
  {
    hide Flat;
    var r, list := Erased(bs, i, j), bs[i].entries[..j] + bs[i].entries[j + 1..];
    assert r[..i] == bs[..i];
    if j < |list| {
      assert r[i + 1..] == bs[i + 1..];
    } else if list == [] {
      assert r[i..] == bs[i + 1..];
      if i < |r| {
        FlatFrom(r, i);
        assert r[i].entries[0..] == r[i].entries;
      } else {
        FlatEmpty();
      }
    } else {
      assert r[i + 1..] == bs[i + 1..];
      NextBucket(r, i);
      NextBucket(bs, i);
    }
  }

  lemma ErasedDistinct(bs: seq<Bucket>, i: nat, j: nat)
    requires ValidMatrix(bs) && Distinct(Flat(bs)) && i < |bs| && j < |bs[i].entries|
    ensures Distinct(Flat(Erased(bs, i, j)))
  {
    EraseSlot(bs, i, j);
    Split(bs, i, j);
    NextEntry(bs, i, j);
    hide *;
    DistinctRemove(Before(bs, i, j), After(bs, i, j + 1), bs[i].entries[j]);
  }

  lemma LastDropped(es: seq<Entry>, x: Entry)
    ensures (es + [x])[..|es + [x]| - 1] == es
  {
  }

  /** `BaseIntersectionIterator` with the erasing `IntersectionIterator` on top of it. */
  class IntersectionIterator {
    const intervals: IntervalMap
    const from: int
    const to: int
    var endIt: nat
    var startIt: nat
    var alreadyNext: bool

    ghost predicate Valid()
      reads this, intervals
    {
      Placed(intervals.buckets, endIt, startIt, from)
    }

    /** What the walk has left behind, including the entry returned last. */
    ghost function Passed(): seq<Entry>
      requires Valid()
      reads this, intervals
    {
      Before(intervals.buckets, endIt, if alreadyNext then startIt else startIt + 1)
    }

    /** What the walk has still to look at. */
    ghost function Ahead(): seq<Entry>
      requires Valid()
      reads this, intervals
    {
      After(intervals.buckets, endIt, if alreadyNext then startIt else startIt + 1)
    }

    ghost predicate OnEntry()
      requires Valid()
      reads this, intervals
    {
      endIt < |intervals.buckets| && !alreadyNext
    }

    ghost function Current(): Entry
      requires Valid() && OnEntry()
      reads this, intervals
    {
      intervals.buckets[endIt].entries[startIt]
    }

    constructor (intervals: IntervalMap, from: int, to: int)
      requires intervals.Valid()
      ensures this.intervals == intervals && this.from == from && this.to == to
      ensures Valid() && !OnEntry()
      ensures Passed() + Ahead() == Flat(intervals.buckets)
      ensures forall e :: e in Passed() ==> !Meets(e, from, to)
    {
      var i := intervals.LowerBound(from);
      this.intervals, this.from, this.to := intervals, from, to;
      endIt, startIt, alreadyNext := i, 0, true;
      new;
      Split(intervals.buckets, i, 0);
      forall e | e in Flat(intervals.buckets[..i])
        ensures !Meets(e, from, to)
      {
        FlatEnds(intervals.buckets[..i], e);
      }
    }

    /** The next frame that meets the interval; everything stepped over on the way does not. */
    method Next() returns (r: Option<AirFrame>)
      requires Valid()
      modifies this
      ensures Valid()
      ensures r.None? ==> !OnEntry() && Ahead() == []
      ensures r.Some? ==> OnEntry() && r.value == Current().frame && Meets(Current(), from, to)
      ensures r.Some? ==> |Passed()| > 0 && Passed()[|Passed()| - 1] == Current()
      ensures Stepped(old(Passed()), old(Ahead()), Passed(), Ahead(), r.Some?, from, to)
    {
      hide Flat, Before, After, Walked, Stepped;
      var bs := intervals.buckets;
      ghost var passed, ahead := Passed(), Ahead();
      WalkStart(bs, endIt, if alreadyNext then startIt else startIt + 1, from, to);
      if endIt == |bs| {
        WalkEnd(bs, if alreadyNext then startIt else startIt + 1, passed, ahead, from, to);
        return None;
      }
      if alreadyNext {
        alreadyNext := false;
      } else {
        startIt := startIt + 1;
      }
      while endIt != |bs|
        invariant endIt <= |bs| && (endIt < |bs| ==> startIt <= |bs[endIt].entries|)
        invariant !alreadyNext
        invariant Walked(bs, endIt, startIt, passed, ahead, from, to)
        invariant forall k :: endIt <= k < |bs| ==> from <= bs[k].end
        decreases |bs| - endIt
      {
        ghost var i := endIt;
        while startIt != |bs[endIt].entries|
          invariant endIt == i && startIt <= |bs[i].entries| && !alreadyNext
          invariant Walked(bs, endIt, startIt, passed, ahead, from, to)
          decreases |bs[endIt].entries| - startIt
        {
          if bs[endIt].entries[startIt].start <= to {
            WalkFound(bs, endIt, startIt, passed, ahead, from, to);
            NextEntry(bs, endIt, startIt);
            return Some(bs[endIt].entries[startIt].frame);
          }
          WalkEntry(bs, endIt, startIt, passed, ahead, from, to);
          startIt := startIt + 1;
        }
        WalkBucket(bs, endIt, passed, ahead, from, to);
        endIt := endIt + 1;
        if endIt == |bs| {
          WalkEnd(bs, 0, passed, ahead, from, to);
          return None;
        }
        startIt := 0;
      }
      WalkEnd(bs, startIt, passed, ahead, from, to);
      return None;
    }

    /** Erases the entry returned last; the walk goes on behind it. */
    method EraseAirFrame()
      requires Valid() && OnEntry() && intervals.Valid()
      modifies this, intervals
      ensures Valid() && !OnEntry() && intervals.Valid()
      ensures Passed() == old(Passed())[..|old(Passed())| - 1]
      ensures Ahead() == old(Ahead())
      ensures Flat(intervals.buckets) == Passed() + Ahead()
    {
      hide Flat, Distinct, Before, After, ValidMatrix, Erased;
      var bs, i, j := intervals.buckets, endIt, startIt;
      EraseSlot(bs, i, j);
      ErasedAround(bs, i, j);
      ErasedPlaced(bs, i, j, from);
      ErasedDistinct(bs, i, j);
      NextEntry(bs, i, j);
      LastDropped(Before(bs, i, j), bs[i].entries[j]);
      var list := bs[i].entries[..j] + bs[i].entries[j + 1..];
      intervals.buckets := Erased(bs, i, j);
      if j == |list| {
        if list != [] {
          endIt := i + 1;
        }
        startIt := 0;
      }
      alreadyNext := true;
    }
  }

  /**
   * A step of the walk: the frames between the old place and the new one do not meet the interval,
   * save the last of them when it is the one found.
   */
  ghost predicate Stepped(passed: seq<Entry>, ahead: seq<Entry>, passed': seq<Entry>, ahead': seq<Entry>, found: bool, from: int, to: int) {
    && passed + ahead == passed' + ahead'
    && |passed| + (if found then 1 else 0) <= |passed'|
    && forall k :: |passed| <= k < |passed'| - (if found then 1 else 0) ==> !Meets(passed'[k], from, to)
  }

  /** From `passed` the walk has come to slot `j` of bucket `i` and skipped only frames off the interval. */
  ghost predicate Walked(bs: seq<Bucket>, i: nat, j: nat, passed: seq<Entry>, ahead: seq<Entry>, from: int, to: int)
    requires i <= |bs| && (i < |bs| ==> j <= |bs[i].entries|)
  {
    Stepped(passed, ahead, Before(bs, i, j), After(bs, i, j), false, from, to)
  }

  lemma WalkStart(bs: seq<Bucket>, i: nat, j: nat, from: int, to: int)
    requires i <= |bs| && (i < |bs| ==> j <= |bs[i].entries|)
    ensures Walked(bs, i, j, Before(bs, i, j), After(bs, i, j), from, to)
  {
  }

  lemma WalkEntry(bs: seq<Bucket>, i: nat, j: nat, passed: seq<Entry>, ahead: seq<Entry>, from: int, to: int)
    requires i < |bs| && j < |bs[i].entries| && Walked(bs, i, j, passed, ahead, from, to)
    requires !Meets(bs[i].entries[j], from, to)
    ensures Walked(bs, i, j + 1, passed, ahead, from, to)
  {
    NextEntry(bs, i, j);
    hide Before, After, Flat, Stepped;
    StepOver(passed, ahead, Before(bs, i, j), bs[i].entries[j], After(bs, i, j + 1), from, to);
  }

  lemma StepOver(passed: seq<Entry>, ahead: seq<Entry>, before: seq<Entry>, x: Entry, after: seq<Entry>, from: int, to: int)
    requires Stepped(passed, ahead, before, [x] + after, false, from, to)
    ensures Stepped(passed, ahead, before + [x], after, true, from, to)
    ensures !Meets(x, from, to) ==> Stepped(passed, ahead, before + [x], after, false, from, to)
  {
    hide Meets;
    assert before + ([x] + after) == (before + [x]) + after;
  }

  lemma WalkBucket(bs: seq<Bucket>, i: nat, passed: seq<Entry>, ahead: seq<Entry>, from: int, to: int)
    requires i < |bs| && Walked(bs, i, |bs[i].entries|, passed, ahead, from, to)
    ensures Walked(bs, i + 1, 0, passed, ahead, from, to)
  {
    NextBucket(bs, i);
  }

  lemma WalkFound(bs: seq<Bucket>, i: nat, j: nat, passed: seq<Entry>, ahead: seq<Entry>, from: int, to: int)
    requires i < |bs| && j < |bs[i].entries| && Walked(bs, i, j, passed, ahead, from, to)
    ensures Stepped(passed, ahead, Before(bs, i, j + 1), After(bs, i, j + 1), true, from, to)
  {
    NextEntry(bs, i, j);
    hide Before, After, Flat, Stepped;
    StepOver(passed, ahead, Before(bs, i, j), bs[i].entries[j], After(bs, i, j + 1), from, to);
  }

  lemma WalkEnd(bs: seq<Bucket>, j: nat, passed: seq<Entry>, ahead: seq<Entry>, from: int, to: int)
    requires Walked(bs, |bs|, j, passed, ahead, from, to)
    ensures forall j': nat :: After(bs, |bs|, j') == [] && Before(bs, |bs|, j') == Before(bs, |bs|, j)
    ensures Stepped(passed, ahead, Before(bs, |bs|, j), [], false, from, to)
  {
  }
}
