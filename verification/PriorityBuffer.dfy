/** The send buffer as the program stores it: a map from priority to a queue, walked in key order. */
module PriorityBuffer {
  import opened SendQueue

  /** One entry of the map; the map is the sequence of its entries by ascending priority. */
  datatype Bucket<K> = Bucket(priority: int, queue: seq<Item<K>>)

  /** All queued items, most urgent first: the order in which the map is walked. */
  function Flatten<K>(bs: seq<Bucket<K>>): seq<Item<K>> {
    if bs == [] then [] else bs[0].queue + Flatten(bs[1..])
  }

  ghost predicate ValidBuckets<K>(bs: seq<Bucket<K>>) {
    && (forall i, j :: 0 <= i < j < |bs| ==> bs[i].priority < bs[j].priority)
    && (forall i, j :: 0 <= i < |bs| && 0 <= j < |bs[i].queue| ==> bs[i].queue[j].priority == bs[i].priority)
  }

  lemma {:induction false} FlattenConcat<K>(a: seq<Bucket<K>>, b: seq<Bucket<K>>)
    ensures Flatten(a + b) == Flatten(a) + Flatten(b)
  {
    if a == [] {
      assert a + b == b;
    } else {
      assert (a + b)[1..] == a[1..] + b;
      FlattenConcat(a[1..], b);
    }
  }

  lemma FlattenAt<K>(bs: seq<Bucket<K>>, i: nat)
    requires i < |bs|
    ensures Flatten(bs) == Flatten(bs[..i]) + bs[i].queue + Flatten(bs[i + 1..])
  {
    hide Flatten;
    assert bs == bs[..i] + bs[i..];
    FlattenConcat(bs[..i], bs[i..]);
    FlattenFrom(bs, i);
  }

  lemma FlattenFrom<K>(bs: seq<Bucket<K>>, i: nat)
    requires i < |bs|
    ensures Flatten(bs[i..]) == bs[i].queue + Flatten(bs[i + 1..])
  {
    assert bs[i..][1..] == bs[i + 1..];
  }

  lemma FlattenUpdate<K>(bs: seq<Bucket<K>>, i: nat, q: seq<Item<K>>)
    requires i < |bs|
    ensures var r := bs[i := bs[i].(queue := q)];
      Flatten(r) == Flatten(bs[..i]) + q + Flatten(bs[i + 1..])
  {
    var r := bs[i := bs[i].(queue := q)];
    FlattenAt(r, i);
    assert r[..i] == bs[..i] && r[i + 1..] == bs[i + 1..];
  }

  lemma {:induction false} FlattenPriorities<K>(bs: seq<Bucket<K>>, low: int, high: int)
    requires ValidBuckets(bs) && forall i :: 0 <= i < |bs| ==> low <= bs[i].priority <= high
    ensures forall i :: 0 <= i < |Flatten(bs)| ==> low <= Flatten(bs)[i].priority <= high
  {
    if bs != [] {
      FlattenPriorities(bs[1..], low, high);
    }
  }

  lemma InsertSplits<K>(a: seq<Item<K>>, b: seq<Item<K>>, item: Item<K>)
    requires forall i :: 0 <= i < |a| ==> a[i].priority <= item.priority
    requires forall i :: 0 <= i < |b| ==> item.priority < b[i].priority
    ensures Insert(a + b, item) == a + [item] + b
  {
    var k := InsertPosition(a + b, item.priority);
    assert forall i :: 0 <= i < |a| ==> (a + b)[i] == a[i];
    assert b != [] ==> (a + b)[|a|] == b[0];
    assert (a + b)[..|a|] == a && (a + b)[|a|..] == b;
  }

  /** `i` is where a priority stands in the map, or would stand. */
  ghost predicate Position<K>(bs: seq<Bucket<K>>, priority: int, i: nat) {
    && i <= |bs|
    && (forall j :: 0 <= j < i ==> bs[j].priority < priority)
    && (forall j :: i <= j < |bs| ==> priority <= bs[j].priority)
  }

  lemma AroundPosition<K>(bs: seq<Bucket<K>>, item: Item<K>, i: nat, k: nat)
    requires ValidBuckets(bs) && i <= k <= |bs|
    requires forall j :: 0 <= j < i ==> bs[j].priority <= item.priority
    requires forall j :: k <= j < |bs| ==> item.priority < bs[j].priority
    ensures forall n :: 0 <= n < |Flatten(bs[..i])| ==> Flatten(bs[..i])[n].priority <= item.priority
    ensures forall n :: 0 <= n < |Flatten(bs[k..])| ==> item.priority < Flatten(bs[k..])[n].priority
  {
    if i > 0 {
      FlattenPriorities(bs[..i], bs[0].priority, item.priority);
    }
    if k < |bs| {
      FlattenPriorities(bs[k..], item.priority + 1, bs[|bs| - 1].priority);
    }
  }

  lemma AppendToBucket<K>(bs: seq<Bucket<K>>, item: Item<K>, i: nat)
    requires ValidBuckets(bs) && Position(bs, item.priority, i) && i < |bs| && bs[i].priority == item.priority
    ensures Flatten(bs[i := bs[i].(queue := bs[i].queue + [item])]) == Insert(Flatten(bs), item)
  {
    FlattenAt(bs, i);
    FlattenUpdate(bs, i, bs[i].queue + [item]);
    AroundPosition(bs, item, i, i + 1);
    InsertSplits(Flatten(bs[..i]) + bs[i].queue, Flatten(bs[i + 1..]), item);
  }

  lemma NewBucket<K>(bs: seq<Bucket<K>>, item: Item<K>, i: nat)
    requires ValidBuckets(bs) && Position(bs, item.priority, i) && (i < |bs| ==> bs[i].priority != item.priority)
    ensures Flatten(bs[..i] + [Bucket(item.priority, [item])] + bs[i..]) == Insert(Flatten(bs), item)
  {
    hide Insert;
    assert bs == bs[..i] + bs[i..];
    FlattenConcat(bs[..i], bs[i..]);
    FlattenConcat(bs[..i], [Bucket(item.priority, [item])]);
    assert Flatten([Bucket(item.priority, [item])]) == [item];
    FlattenConcat(bs[..i] + [Bucket(item.priority, [item])], bs[i..]);
    AroundPosition(bs, item, i, i);
    InsertSplits(Flatten(bs[..i]), Flatten(bs[i..]), item);
  }

  /** `buffer[item.priority].push_back(item)`: find the entry, or create it, and append. */
  method PushBack<K>(bs: seq<Bucket<K>>, item: Item<K>) returns (r: seq<Bucket<K>>)
    requires ValidBuckets(bs)
    ensures ValidBuckets(r)
    ensures Flatten(r) == Insert(Flatten(bs), item)
  {
    hide Insert, Flatten;
    var i := 0;
    while i < |bs| && bs[i].priority < item.priority
      invariant 0 <= i <= |bs|
      invariant forall j :: 0 <= j < i ==> bs[j].priority < item.priority
    {
      i := i + 1;
    }
    if i < |bs| && bs[i].priority == item.priority {
      AppendToBucket(bs, item, i);
      r := bs[i := bs[i].(queue := bs[i].queue + [item])];
    } else {
      NewBucket(bs, item, i);
      r := bs[..i] + [Bucket(item.priority, [item])] + bs[i..];
      NewBucketValid(bs, item, i);
    }
  }

  lemma NewBucketValid<K>(bs: seq<Bucket<K>>, item: Item<K>, i: nat)
    requires ValidBuckets(bs) && Position(bs, item.priority, i) && (i < |bs| ==> bs[i].priority != item.priority)
    ensures ValidBuckets(bs[..i] + [Bucket(item.priority, [item])] + bs[i..])
  {
  }

  /** Erase the entries left empty at the front, so that the first entry holds the next item. */
  method SkipEmpty<K>(bs: seq<Bucket<K>>) returns (r: seq<Bucket<K>>)
    requires ValidBuckets(bs)
    ensures ValidBuckets(r) && Flatten(r) == Flatten(bs)
    ensures r != [] ==> r[0].queue != []
    ensures r == [] <==> Flatten(bs) == []
  {
    r := bs;
    while r != [] && r[0].queue == []
      invariant ValidBuckets(r) && Flatten(r) == Flatten(bs)
      decreases |r|
    {
      r := r[1..];
    }
  }

  /** Replace the first item, or take it out; an entry left empty is erased. */
  method ReplaceFirst<K>(bs: seq<Bucket<K>>, item: Item<K>) returns (r: seq<Bucket<K>>)
    requires ValidBuckets(bs) && bs != [] && bs[0].queue != [] && item.priority == bs[0].priority
    ensures ValidBuckets(r) && Flatten(bs) != [] && Flatten(r) == Flatten(bs)[0 := item]
  {
    r := bs[0 := bs[0].(queue := bs[0].queue[0 := item])];
    FlattenUpdate(bs, 0, bs[0].queue[0 := item]);
    FlattenAt(bs, 0);
    assert bs[..0] == [];
  }

  method PopFirst<K>(bs: seq<Bucket<K>>) returns (r: seq<Bucket<K>>)
    requires ValidBuckets(bs) && bs != [] && bs[0].queue != []
    ensures ValidBuckets(r) && Flatten(bs) != [] && Flatten(r) == Remove(Flatten(bs), 0)
  {
    FlattenUpdate(bs, 0, bs[0].queue[1..]);
    FlattenAt(bs, 0);
    assert bs[..0] == [];
    r := bs[0 := bs[0].(queue := bs[0].queue[1..])];
    assert Flatten(r) == Remove(Flatten(bs), 0);
    if r[0].queue == [] {
      r := r[1..];
    }
  }

  /** Erase the item at `j` of the entry `i`. */
  method EraseAt<K>(bs: seq<Bucket<K>>, i: nat, j: nat) returns (r: seq<Bucket<K>>)
    requires ValidBuckets(bs) && i < |bs| && j < |bs[i].queue|
    ensures ValidBuckets(r) && |r| == |bs| && r[..i] == bs[..i] && r[i].queue == Remove(bs[i].queue, j)
    ensures |Flatten(bs[..i])| + j < |Flatten(bs)|
    ensures Flatten(r) == Remove(Flatten(bs), |Flatten(bs[..i])| + j)
  {
    r := bs[i := bs[i].(queue := Remove(bs[i].queue, j))];
    FlattenUpdate(bs, i, Remove(bs[i].queue, j));
    FlattenAt(bs, i);
    hide Flatten, Remove;
    RemoveWithin(Flatten(bs[..i]), bs[i].queue, Flatten(bs[i + 1..]), j);
  }

  lemma RemoveWithin<T>(a: seq<T>, q: seq<T>, c: seq<T>, j: nat)
    requires j < |q|
    ensures Remove(a + q + c, |a| + j) == a + Remove(q, j) + c
  {
  }

  /** Erase the entry `i`, left empty. */
  method EraseBucket<K>(bs: seq<Bucket<K>>, i: nat) returns (r: seq<Bucket<K>>)
    requires ValidBuckets(bs) && i < |bs| && bs[i].queue == []
    ensures ValidBuckets(r) && |r| == |bs| - 1 && r[..i] == bs[..i]
    ensures Flatten(r) == Flatten(bs)
  {
    r := bs[..i] + bs[i + 1..];
    FlattenAt(bs, i);
    FlattenConcat(bs[..i], bs[i + 1..]);
  }
}
