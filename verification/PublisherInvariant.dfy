/** What every reachable publisher state satisfies, and why each operation keeps it. */
module PublisherInvariant {
  import opened Bytes
  import opened MoqFraming
  import opened SendQueue
  import opened Publisher

  // ---- The invariant ----

  ghost predicate StreamOfTrack(s: State, h: Stream<Key>) {
    && 0 <= h.key.tid < |s.cfg.tracks|
    && h.socket == 0 && h.priority == s.cfg.tracks[h.key.tid].priority
    && forall f :: f in h.offered ==>
         f.trackId == h.key.tid && f.groupId == h.key.groupId && f.subgroupId == h.key.subgroupId
         && f.trackAlias == s.cfg.tracks[h.key.tid].alias && f.priority == h.priority
         && f.objectId < Count(s.next, h.key.tid)
  }

  predicate ItemOfTrack(s: State, item: Item<Key>) {
    0 <= item.key.tid < |s.cfg.tracks| && item.timeout == s.cfg.tracks[item.key.tid].deliveryTimeout
  }

  predicate OutstandingOk(s: State, o: Outstanding) {
    && o.stream in s.ch.hist && s.ch.hist[o.stream].key == o.key
    && 0 <= o.key.tid < |s.cfg.tracks| && o.timeout == s.cfg.tracks[o.key.tid].deliveryTimeout > 0
  }

  /** Streams, queued and outstanding objects belong to configured tracks and carry their settings. */
  ghost predicate Tracks(s: State) {
    && s.ch.queue.Keys == {0}
    && (forall id :: id in s.ch.hist ==> StreamOfTrack(s, s.ch.hist[id]))
    && (forall i :: 0 <= i < |s.Buffer()| ==> ItemOfTrack(s, s.Buffer()[i]))
    && (forall i :: 0 <= i < |s.outstanding| ==> OutstandingOk(s, s.outstanding[i]))
  }

  predicate TimedTrack(s: State, tid: int) {
    0 <= tid < |s.cfg.tracks| && s.cfg.tracks[tid].deliveryTimeout > 0
  }

  ghost predicate WasReset(wire: seq<Command>, id: int) {
    exists i :: 0 <= i < |wire| && wire[i].Reset? && wire[i].stream == id
  }

  /** A stream is open or was reset; none is forgotten. Ids are multiples of 4, and no subgroup had two. */
  ghost predicate Accounted(c: Channel<Key>) {
    && c.nextId % 4 == 0
    && (forall a, b :: a in c.hist && b in c.hist && c.hist[a].key == c.hist[b].key ==> a == b)
    && forall id :: id in c.hist ==> c.IsOpen(id) || (c.hist[id].key in c.reset && WasReset(c.wire, id))
  }

  /** Before teardown every reset and every loss is a delivery timeout of a track that has one. */
  ghost predicate Causes(s: State) {
    !s.ended ==>
      && (forall k :: k in s.ch.reset ==> s.ch.reset[k] == MOQ_ERR_DELIVERY_TIMEOUT && TimedTrack(s, k.tid))
      && (forall t :: Count(s.stats.shedOverflow, t) == 0)
      && (forall t :: !TimedTrack(s, t) ==> Count(s.stats.shedStale, t) == Count(s.stats.resetAfterSend, t) == 0)
  }

  function InBuffer(q: seq<Item<Key>>, tid: int): nat {
    if q == [] then 0 else (if q[0].key.tid == tid then 1 else 0) + InBuffer(q[1..], tid)
  }

  /** Every object accepted is fully sent, shed, or still buffered. */
  ghost predicate Balanced(s: State) {
    forall t :: Count(s.stats.accepted, t)
             == Count(s.stats.sent, t) + Count(s.stats.shedStale, t) + Count(s.stats.shedOverflow, t) + InBuffer(s.Buffer(), t)
  }

  predicate NoDone(wire: seq<Command>) {
    forall i :: 0 <= i < |wire| ==> !wire[i].PublishDone?
  }

  /** Every stream ever opened was reset, then one PUBLISH_DONE per track was sent, then nothing. */
  ghost predicate ClosedWire(s: State) {
    var n := |s.cfg.tracks|;
    && n <= |s.ch.wire|
    && var before := s.ch.wire[..|s.ch.wire| - n];
    && s.ch.wire == before + DoneMessages(s.cfg.tracks, s.endStatus, n)
    && NoDone(before)
    && forall id :: id in s.ch.hist ==> WasReset(before, id)
  }

  ghost predicate Teardown(s: State) {
    if s.ended then
      s.Buffer() == [] && s.ch.open == map[] && s.outstanding == [] && ClosedWire(s)
    else
      NoDone(s.ch.wire)
  }

  ghost predicate Books(s: State) {
    0 < s.cfg.chunk && Tracks(s) && Causes(s) && Balanced(s) && Teardown(s)
  }

  ghost predicate Inv(s: State) {
    SendQueue.Valid(s.ch) && Accounted(s.ch) && Books(s)
  }

  lemma InitialInv(cfg: Config)
    requires 0 < cfg.chunk
    ensures Inv(Initial(cfg))
  {
    EmptyValid<Key>({0}, 4);
  }

  // ---- Counting ----

  lemma {:induction false} InBufferSplit(a: seq<Item<Key>>, b: seq<Item<Key>>, t: int)
    ensures InBuffer(a + b, t) == InBuffer(a, t) + InBuffer(b, t)
  {
    if a == [] {
      assert a + b == b;
    } else {
      assert (a + b)[1..] == a[1..] + b;
      InBufferSplit(a[1..], b, t);
    }
  }

  lemma InBufferRemove(q: seq<Item<Key>>, i: nat, t: int)
    requires i < |q|
    ensures InBuffer(Remove(q, i), t) == InBuffer(q, t) - (if q[i].key.tid == t then 1 else 0)
  {
    assert q == q[..i] + ([q[i]] + q[i + 1..]);
    assert ([q[i]] + q[i + 1..])[1..] == q[i + 1..];
    InBufferSplit(q[..i], [q[i]] + q[i + 1..], t);
    InBufferSplit(q[..i], q[i + 1..], t);
  }

  lemma InBufferInsert(q: seq<Item<Key>>, item: Item<Key>, t: int)
    ensures InBuffer(Insert(q, item), t) == InBuffer(q, t) + (if item.key.tid == t then 1 else 0)
  {
    var k := InsertPosition(q, item.priority);
    assert Insert(q, item) == q[..k] + ([item] + q[k..]);
    assert ([item] + q[k..])[1..] == q[k..];
    assert q == q[..k] + q[k..];
    InBufferSplit(q[..k], [item] + q[k..], t);
    InBufferSplit(q[..k], q[k..], t);
  }

  lemma {:induction false} CountAllCounts(m: Counts, q: seq<Item<Key>>, t: int)
    ensures Count(CountAll(m, q), t) == Count(m, t) + InBuffer(q, t)
    decreases |q|
  {
    if q != [] {
      CountAllCounts(Bump(m, q[0].key.tid), q[1..], t);
    }
  }

  // ---- Resetting a stream ----

  lemma ResetAccounted(c: Channel<Key>, k: Key, stream: int, code: int)
    requires Accounted(c) && stream in c.hist && c.hist[stream].key == k && (k in c.open ==> c.open[k] == stream)
    ensures Accounted(ResetStream(c, k, stream, code))
  {
    var c1 := ResetStream(c, k, stream, code);
    forall id | id in c1.hist
      ensures c1.IsOpen(id) || (c1.hist[id].key in c1.reset && WasReset(c1.wire, id))
    {
      if id == stream {
        assert c1.wire[|c.wire|].stream == id;
      } else if !c.IsOpen(id) {
        var i :| 0 <= i < |c.wire| && c.wire[i].Reset? && c.wire[i].stream == id;
        assert c1.wire[i] == c.wire[i];
      }
    }
  }

  ghost predicate OwnStream(c: Channel<Key>, k: Key, stream: int) {
    stream in c.hist && c.hist[stream].key == k && (k in c.open ==> c.open[k] == stream)
  }

  lemma ResetSubgroupBooks(s: State, k: Key, stream: int)
    requires Books(s) && !s.ended && TimedTrack(s, k.tid)
    ensures Books(ResetSubgroup(s, k, stream, MOQ_ERR_DELIVERY_TIMEOUT))
  {
    var r := ResetSubgroup(s, k, stream, MOQ_ERR_DELIVERY_TIMEOUT);
    assert r.Buffer() == s.Buffer();
    assert forall t :: TimedTrack(r, t) == TimedTrack(s, t);
  }

  /** Resetting the stream of a track whose objects may time out keeps the invariant. */
  lemma ResetSubgroupInv(s: State, k: Key, stream: int)
    requires Inv(s) && !s.ended && OwnStream(s.ch, k, stream) && TimedTrack(s, k.tid)
    ensures Inv(ResetSubgroup(s, k, stream, MOQ_ERR_DELIVERY_TIMEOUT))
  {
    hide SendQueue.Valid, Accounted, Books;
    ResetStreamValid(s.ch, k, stream, MOQ_ERR_DELIVERY_TIMEOUT);
    ResetAccounted(s.ch, k, stream, MOQ_ERR_DELIVERY_TIMEOUT);
    ResetSubgroupBooks(s, k, stream);
  }

  lemma ItemOwnsStream(s: State, i: nat)
    requires SendQueue.Valid(s.ch) && i < |s.Buffer()|
    ensures var item := s.Buffer()[i];
      && OwnStream(s.ch, item.key, item.stream)
      && (item.key in s.ch.reset <==> !s.ch.IsOpen(item.stream))
      && item.sentOffset < |item.bytes|
  {
    hide Encode, Wire, Discipline;
    assert ItemOk(s.ch, 0, s.Buffer()[i]);
  }

  // ---- Shedding an object ----

  function Shed(s: State, i: nat): State
    requires i < |s.Buffer()|
  {
    s.(ch := Drop(s.ch, 0, i), stats := s.stats.(shedStale := Bump(s.stats.shedStale, s.Buffer()[i].key.tid)))
  }

  lemma ShedBalanced(s: State, i: nat)
    requires Balanced(s) && i < |s.Buffer()|
    ensures Balanced(Shed(s, i))
  {
    var r := Shed(s, i);
    forall t
      ensures InBuffer(r.Buffer(), t) == InBuffer(s.Buffer(), t) - (if s.Buffer()[i].key.tid == t then 1 else 0)
    {
      InBufferRemove(s.Buffer(), i, t);
    }
  }

  lemma ShedTracks(s: State, i: nat)
    requires Tracks(s) && i < |s.Buffer()|
    ensures Tracks(Shed(s, i))
  {
    var r := Shed(s, i);
    forall j | 0 <= j < |r.Buffer()|
      ensures ItemOfTrack(r, r.Buffer()[j])
    {
      assert ItemOfTrack(s, s.Buffer()[if j < i then j else j + 1]);
    }
  }

  lemma ShedBooks(s: State, i: nat)
    requires Books(s) && i < |s.Buffer()| && TimedTrack(s, s.Buffer()[i].key.tid)
    ensures Books(Shed(s, i))
  {
    ShedBalanced(s, i);
    ShedTracks(s, i);
    hide Balanced, Tracks;
    assert forall t :: TimedTrack(Shed(s, i), t) == TimedTrack(s, t);
  }

  lemma ShedInv(s: State, i: nat)
    requires Inv(s) && i < |s.Buffer()| && Droppable(s.ch, s.Buffer()[i]) && TimedTrack(s, s.Buffer()[i].key.tid)
    ensures Inv(Shed(s, i))
  {
    hide SendQueue.Valid, Books;
    DropValid(s.ch, 0, i);
    ShedBooks(s, i);
    assert forall id :: Drop(s.ch, 0, i).IsOpen(id) == s.ch.IsOpen(id);
  }

  lemma ShedStaleAtInv(s: State, i: nat, now: int)
    requires Inv(s) && i < |s.Buffer()| && s.Buffer()[i].Stale(now)
    ensures Inv(ShedStaleAt(s, i))
  {
    var item := s.Buffer()[i];
    assert ItemOfTrack(s, item);
    ItemOwnsStream(s, i);
    var r := s;
    if item.sentOffset > 0 {
      r := ResetSubgroup(s, item.key, item.stream, MOQ_ERR_DELIVERY_TIMEOUT);
      ResetSubgroupInv(s, item.key, item.stream);
    }
    hide Inv;
    ShedInv(r, i);
  }

  lemma FlushAbandonedInv(s: State)
    requires Inv(s) && s.Buffer() != [] && s.Buffer()[0].key in s.ch.reset
    ensures Inv(FlushAbandoned(s))
  {
    hide SendQueue.Valid;
    assert FlushAbandoned(s) == Shed(s, 0);
    ShedInv(s, 0);
  }

  // ---- Writing ----

  lemma WasResetAppend(wire: seq<Command>, more: seq<Command>, id: int)
    requires WasReset(wire, id)
    ensures WasReset(wire + more, id)
  {
    var i :| 0 <= i < |wire| && wire[i].Reset? && wire[i].stream == id;
    assert (wire + more)[i] == wire[i];
  }

  lemma WriteAccounted(c: Channel<Key>, chunk: int)
    requires Accounted(c) && Streams(c) && Writable(c, 0) && 0 < chunk
    requires Unfinished(c.Items(0)[0])
    ensures Accounted(WriteFront(c, 0, chunk))
  {
    WriteFrontShape(c, 0, chunk);
    var c1 := WriteFront(c, 0, chunk);
    hide WriteFront, Streams;
    forall id | id in c1.hist
      ensures c1.IsOpen(id) || (c1.hist[id].key in c1.reset && WasReset(c1.wire, id))
    {
      if !c.IsOpen(id) {
        WasResetAppend(c.wire, [FrontCommand(c, 0, chunk)], id);
      }
    }
  }

  lemma FlushWriteItems(s: State)
    requires Tracks(s) && s.Buffer() != [] && Unfinished(s.Buffer()[0]) && 0 < s.cfg.chunk
    ensures FlushWrite(s).ch.queue.Keys == {0}
    ensures forall i :: 0 <= i < |FlushWrite(s).Buffer()| ==> ItemOfTrack(FlushWrite(s), FlushWrite(s).Buffer()[i])
  {
    hide Encode;
    var r, q := FlushWrite(s), s.Buffer();
    assert ItemOfTrack(s, q[0]);
    forall i | 0 <= i < |r.Buffer()|
      ensures ItemOfTrack(r, r.Buffer()[i])
    {
      assert ItemOfTrack(s, q[i + |q| - |r.Buffer()|]);
    }
  }

  lemma FlushWriteShape(s: State)
    requires s.Buffer() != [] && Unfinished(s.Buffer()[0]) && 0 < s.cfg.chunk
    ensures var (r, item) := (FlushWrite(s), s.Buffer()[0]);
      && r.ch == WriteFront(s.ch, 0, s.cfg.chunk)
      && r.cfg == s.cfg && r.next == s.next && r.ended == s.ended && r.endStatus == s.endStatus
      && (r.outstanding == s.outstanding || (item.timeout > 0 && r.outstanding ==
            s.outstanding + [Outstanding(item.key, item.stream, item.createdAt, item.timeout)]))
      && r.stats == s.stats.(sent := r.stats.sent)
  {
    hide WriteFront, Encode;
  }

  lemma FlushWriteTracks(s: State)
    requires Tracks(s) && s.Buffer() != [] && Unfinished(s.Buffer()[0]) && 0 < s.cfg.chunk
    requires OwnStream(s.ch, s.Buffer()[0].key, s.Buffer()[0].stream)
    ensures Tracks(FlushWrite(s))
  {
    FlushWriteItems(s);
    FlushWriteStreams(s);
    FlushWriteOutstanding(s);
    hide FlushWrite, StreamOfTrack, ItemOfTrack, OutstandingOk;
  }

  lemma FlushWriteStreams(s: State)
    requires Tracks(s) && s.Buffer() != [] && Unfinished(s.Buffer()[0]) && 0 < s.cfg.chunk
    ensures var r := FlushWrite(s);
      forall id :: id in r.ch.hist ==> StreamOfTrack(r, r.ch.hist[id])
  {
    WriteFrontShape(s.ch, 0, s.cfg.chunk);
    FlushWriteShape(s);
    hide WriteFront, FlushWrite;
    var r, q := FlushWrite(s), s.Buffer();
    assert ItemOfTrack(s, q[0]);
    forall id | id in r.ch.hist
      ensures StreamOfTrack(r, r.ch.hist[id])
    {
      assert StreamOfTrack(s, s.ch.hist[id]);
    }
  }

  lemma FlushWriteOutstanding(s: State)
    requires Tracks(s) && s.Buffer() != [] && Unfinished(s.Buffer()[0]) && 0 < s.cfg.chunk
    requires OwnStream(s.ch, s.Buffer()[0].key, s.Buffer()[0].stream)
    ensures var r := FlushWrite(s);
      forall i :: 0 <= i < |r.outstanding| ==> OutstandingOk(r, r.outstanding[i])
  {
    WriteFrontShape(s.ch, 0, s.cfg.chunk);
    FlushWriteShape(s);
    hide WriteFront, FlushWrite, StreamOfTrack;
    var r, q := FlushWrite(s), s.Buffer();
    assert ItemOfTrack(s, q[0]);
    forall i | 0 <= i < |r.outstanding|
      ensures OutstandingOk(r, r.outstanding[i])
    {
      assert i < |s.outstanding| ==> OutstandingOk(s, s.outstanding[i]);
    }
  }

  lemma FlushWriteBalanced(s: State)
    requires Balanced(s) && s.Buffer() != [] && Unfinished(s.Buffer()[0]) && 0 < s.cfg.chunk
    ensures Balanced(FlushWrite(s))
  {
    hide Encode;
    var r, q := FlushWrite(s), s.Buffer();
    assert q[1..] == Remove(q, 0);
    assert |r.Buffer()| == |q| ==> r.Buffer()[1..] == q[1..];
  }

  lemma FlushWriteBooks(s: State)
    requires Books(s) && s.Buffer() != [] && Unfinished(s.Buffer()[0])
    requires OwnStream(s.ch, s.Buffer()[0].key, s.Buffer()[0].stream)
    ensures Books(FlushWrite(s))
  {
    hide Tracks, Balanced, Causes, Teardown, FlushWrite;
    FlushWriteTracks(s);
    FlushWriteBalanced(s);
    FlushWriteRest(s);
  }

  lemma FlushWriteRest(s: State)
    requires 0 < s.cfg.chunk && Causes(s) && Teardown(s) && s.Buffer() != [] && Unfinished(s.Buffer()[0])
    ensures FlushWrite(s).cfg == s.cfg && Causes(FlushWrite(s)) && Teardown(FlushWrite(s))
  {
    hide WriteFront, FlushWrite;
    FlushWriteShape(s);
    WriteFrontShape(s.ch, 0, s.cfg.chunk);
    assert forall t :: TimedTrack(FlushWrite(s), t) == TimedTrack(s, t);
  }

  lemma FlushWriteInv(s: State)
    requires Inv(s) && s.Buffer() != [] && s.Buffer()[0].key !in s.ch.reset
    ensures Unfinished(s.Buffer()[0]) && Inv(FlushWrite(s))
  {
    ItemOwnsStream(s, 0);
    FlushWriteBooks(s);
    WriteAccounted(s.ch, s.cfg.chunk);
    hide Books, Accounted, WriteFront;
    WriteFrontValid(s.ch, 0, s.cfg.chunk);
    assert FlushWrite(s).ch == WriteFront(s.ch, 0, s.cfg.chunk);
  }

  lemma FlushStepInv(s: State, now: int)
    requires Inv(s) && s.Buffer() != []
    ensures Unfinished(s.Buffer()[0]) && Inv(FlushStep(s, now))
  {
    hide Books, Accounted;
    ItemOwnsStream(s, 0);
    hide Inv, SendQueue.Valid;
    if s.Buffer()[0].key in s.ch.reset {
      FlushAbandonedInv(s);
    } else if s.Buffer()[0].Stale(now) {
      ShedStaleAtInv(s, 0, now);
    } else {
      FlushWriteInv(s);
    }
  }

  lemma {:induction false} FlushLoopInv(s: State, now: int, qlen: int)
    requires Inv(s) && Sound(s)
    ensures Inv(FlushLoop(s, now, qlen))
    decreases Work(s.Buffer())
  {
    hide Inv;
    if !(s.blocked || s.Buffer() == [] || qlen + s.eventBytes >= s.cfg.queueLimit) {
      FlushStepShrinks(s, now);
      FlushStepInv(s, now);
      FlushLoopInv(FlushStep(s, now), now, qlen);
    }
  }

  /** Pacing and bookkeeping fields do not matter to the invariant. */
  lemma PacingInv(s: State, blocked: bool, event: int, bytes: int)
    requires Inv(s)
    ensures Inv(s.(blocked := blocked, writeEvent := event, eventBytes := bytes))
  {
    hide SendQueue.Valid, Accounted;
    var r := s.(blocked := blocked, writeEvent := event, eventBytes := bytes);
    assert r.Buffer() == s.Buffer();
    assert forall t :: TimedTrack(r, t) == TimedTrack(s, t);
    assert forall h :: StreamOfTrack(s, h) ==> StreamOfTrack(r, h);
    assert ClosedWire(s) ==> ClosedWire(r);
  }

  lemma FlushInv(s: State, now: int, qlen: int)
    requires Inv(s) && Sound(s)
    ensures Inv(Flush(s, now, qlen))
  {
    hide Inv;
    PacingInv(s, s.blocked, now, 0);
    FlushLoopInv(EnterEvent(s, now), now, qlen);
  }

  // ---- Sweeping ----

  lemma OutstandingOwnsStream(s: State, i: nat)
    requires Books(s) && i < |s.outstanding| && s.outstanding[i].key !in s.ch.reset
    requires Accounted(s.ch)
    ensures var o := s.outstanding[i];
      OwnStream(s.ch, o.key, o.stream) && TimedTrack(s, o.key.tid) && !s.ended
  {
    assert OutstandingOk(s, s.outstanding[i]);
  }

  lemma ExpireAtInv(s: State, i: nat)
    requires Inv(s) && i < |s.outstanding| && s.outstanding[i].key !in s.ch.reset
    ensures Inv(ExpireAt(s, i))
  {
    hide SendQueue.Valid, Accounted, Books;
    var o := s.outstanding[i];
    OutstandingOwnsStream(s, i);
    ResetSubgroupInv(s, o.key, o.stream);
    var r := ResetSubgroup(s, o.key, o.stream, MOQ_ERR_DELIVERY_TIMEOUT);
    hide Inv;
    RemoveOutstandingInv(r, i, Bump(r.stats.resetAfterSend, o.key.tid));
  }

  /** Bookkeeping of outstanding objects may forget any of them. */
  lemma FewerOutstandingBooks(s: State, os: seq<Outstanding>, after: Counts)
    requires Books(s) && (forall o :: o in os ==> o in s.outstanding)
    requires after == s.stats.resetAfterSend
          || exists t :: TimedTrack(s, t) && after == Bump(s.stats.resetAfterSend, t)
    ensures Books(s.(outstanding := os, stats := s.stats.(resetAfterSend := after)))
  {
    var r := s.(outstanding := os, stats := s.stats.(resetAfterSend := after));
    assert r.Buffer() == s.Buffer();
    assert forall t :: TimedTrack(r, t) == TimedTrack(s, t);
    assert os != [] ==> os[0] in s.outstanding;
    forall j | 0 <= j < |os|
      ensures OutstandingOk(r, os[j])
    {
      assert os[j] in s.outstanding;
    }
  }

  lemma RemoveOutstandingInv(s: State, i: nat, after: Counts)
    requires Inv(s) && i < |s.outstanding|
    requires after == s.stats.resetAfterSend
          || (TimedTrack(s, s.outstanding[i].key.tid) && after == Bump(s.stats.resetAfterSend, s.outstanding[i].key.tid))
    ensures Inv(s.(outstanding := Remove(s.outstanding, i), stats := s.stats.(resetAfterSend := after)))
  {
    hide SendQueue.Valid, Accounted, Books;
    FewerOutstandingBooks(s, Remove(s.outstanding, i), after);
  }

  lemma {:induction false} ExpireFromInv(s: State, i: nat, now: int)
    requires Inv(s) && i <= |s.outstanding|
    ensures Inv(ExpireFrom(s, i, now))
    decreases |s.outstanding| - i
  {
    hide Inv;
    if i < |s.outstanding| {
      if s.outstanding[i].key in s.ch.reset {
        RemoveOutstandingInv(s, i, s.stats.resetAfterSend);
        var r := s.(outstanding := Remove(s.outstanding, i));
        assert r == s.(outstanding := Remove(s.outstanding, i), stats := s.stats.(resetAfterSend := s.stats.resetAfterSend));
        ExpireFromInv(r, i, now);
      } else if now - s.outstanding[i].createdAt > s.outstanding[i].timeout {
        ExpireAtInv(s, i);
        ExpireFromInv(ExpireAt(s, i), i, now);
      } else {
        ExpireFromInv(s, i + 1, now);
      }
    }
  }

  lemma CheckOutstandingInv(s: State, now: int, qlen: int)
    requires Inv(s)
    ensures Inv(CheckOutstanding(s, now, qlen))
  {
    hide SendQueue.Valid, Accounted, Books;
    if qlen == 0 {
      FewerOutstandingBooks(s, [], s.stats.resetAfterSend);
      assert s.stats.(resetAfterSend := s.stats.resetAfterSend) == s.stats;
    } else {
      ExpireFromInv(s, 0, now);
    }
  }

  lemma {:induction false} SweepFromInv(s: State, i: nat, now: int)
    requires Inv(s) && i <= |s.Buffer()|
    ensures Inv(SweepFrom(s, i, now))
    decreases |s.Buffer()| - i
  {
    hide Inv;
    if i < |s.Buffer()| {
      if s.Buffer()[i].Stale(now) {
        ShedStaleAtInv(s, i, now);
        SweepFromInv(ShedStaleAt(s, i), i, now);
      } else {
        SweepFromInv(s, i + 1, now);
      }
    }
  }

  // ---- Tearing down ----

  /** What holds between the first reset and the last PUBLISH_DONE of a teardown. */
  ghost predicate TearingBooks(s: State) {
    0 < s.cfg.chunk && Tracks(s) && Balanced(s) && NoDone(s.ch.wire)
  }

  ghost predicate Tearing(s: State) {
    SendQueue.Valid(s.ch) && Accounted(s.ch) && TearingBooks(s)
  }

  lemma TearingBooksReset(s: State, k: Key, stream: int, code: int)
    requires TearingBooks(s)
    ensures TearingBooks(ResetSubgroup(s, k, stream, code))
  {
    assert ResetSubgroup(s, k, stream, code).Buffer() == s.Buffer();
  }

  lemma OpenOwnsStream(c: Channel<Key>, k: Key)
    requires Streams(c) && k in c.open
    ensures OwnStream(c, k, c.open[k])
  {
  }

  lemma TearingReset(s: State, k: Key, code: int)
    requires Tearing(s) && k in s.ch.open
    ensures Tearing(ResetSubgroup(s, k, s.ch.open[k], code))
  {
    OpenOwnsStream(s.ch, k);
    hide SendQueue.Valid, Accounted, TearingBooks;
    ResetStreamValid(s.ch, k, s.ch.open[k], code);
    ResetAccounted(s.ch, k, s.ch.open[k], code);
    TearingBooksReset(s, k, s.ch.open[k], code);
  }

  lemma {:induction false} ResetAllTearing(s: State, code: int)
    requires Tearing(s)
    ensures Tearing(ResetAll(s, code))
    decreases |s.ch.open|
  {
    hide Tearing;
    if s.ch.open != map[] {
      FirstExists(s.ch.open.Keys);
      var k :| IsFirst(k, s.ch.open.Keys) &&
        ResetAll(s, code) == ResetAll(ResetSubgroup(s, k, s.ch.open[k], code), code);
      assert s.ch.open.Keys == (s.ch.open - {k}).Keys + {k};
      TearingReset(s, k, code);
      ResetAllTearing(ResetSubgroup(s, k, s.ch.open[k], code), code);
    }
  }

  lemma {:induction false} DoneMessagesShape(tracks: seq<Track>, status: int, n: nat)
    requires n <= |tracks|
    ensures forall i :: 0 <= i < n ==> DoneMessages(tracks, status, n)[i] == PublishDone(0, i, tracks[i].alias, status)
  {
    if n > 0 {
      DoneMessagesShape(tracks, status, n - 1);
    }
  }

  lemma {:induction false} DonesCarryNoData(wire: seq<Command>, tracks: seq<Track>, status: int, n: nat, id: int)
    requires n <= |tracks|
    ensures StreamBytes(wire + DoneMessages(tracks, status, n), id) == StreamBytes(wire, id)
  {
    var d := DoneMessages(tracks, status, n);
    if n == 0 {
      assert wire + d == wire;
    } else {
      var e := DoneMessages(tracks, status, n - 1);
      DonesCarryNoData(wire, tracks, status, n - 1, id);
      assert wire + d == (wire + e) + [d[n - 1]];
      StreamBytesAppend(wire + e, d[n - 1], id);
    }
  }

  lemma ClosedChannelValid(c: Channel<Key>, tracks: seq<Track>, status: int)
    requires SendQueue.Valid(c) && c.open == map[] && c.queue.Keys == {0}
    ensures SendQueue.Valid(c.(queue := c.queue[0 := []],
                               wire := c.wire + DoneMessages(tracks, status, |tracks|)))
  {
    hide Encode, Framable, ItemOk;
    var r := c.(queue := c.queue[0 := []], wire := c.wire + DoneMessages(tracks, status, |tracks|));
    DoneMessagesShape(tracks, status, |tracks|);
    forall id | id in r.hist
      ensures StreamBytes(r.wire, id) == Written(r.hist[id])
    {
      DonesCarryNoData(c.wire, tracks, status, |tracks|, id);
    }
    assert forall id :: !r.IsOpen(id);
    assert NoSendAfterReset(r.wire);
  }

  lemma TerminateBalanced(s: State, q: seq<Item<Key>>, r: State)
    requires Balanced(s) && q == s.Buffer() && r.Buffer() == []
    requires r.stats == s.stats.(shedOverflow := CountAll(s.stats.shedOverflow, q), shedAtTeardown := r.stats.shedAtTeardown)
    ensures Balanced(r)
  {
    forall t
      ensures Count(r.stats.shedOverflow, t) == Count(s.stats.shedOverflow, t) + InBuffer(q, t)
    {
      CountAllCounts(s.stats.shedOverflow, q, t);
    }
  }

  lemma FinishAccounted(r: State, status: int)
    requires Accounted(r.ch) && r.ch.open == map[] && NoDone(r.ch.wire) && r.endStatus == status
    ensures Accounted(Finish(r, status).ch) && ClosedWire(Finish(r, status))
  {
    var t, n := Finish(r, status), |r.cfg.tracks|;
    assert t.ch.wire[..|t.ch.wire| - n] == r.ch.wire;
    forall id | id in t.ch.hist
      ensures WasReset(t.ch.wire, id) && WasReset(r.ch.wire, id)
    {
      WasResetAppend(r.ch.wire, DoneMessages(r.cfg.tracks, status, n), id);
    }
  }

  lemma FinishBooks(r: State, status: int)
    requires TearingBooks(r) && Accounted(r.ch) && r.ch.open == map[] && r.ended && r.endStatus == status
    ensures Books(Finish(r, status))
  {
    FinishAccounted(r, status);
    TerminateBalanced(r, r.Buffer(), Finish(r, status));
    hide Balanced, ClosedWire, Accounted;
  }

  lemma TerminateFinish(r: State, status: int)
    requires Tearing(r) && r.ch.open == map[] && r.ended && r.endStatus == status
    ensures Inv(Finish(r, status))
  {
    assert r.ch.queue.Keys == {0} && NoDone(r.ch.wire);
    hide SendQueue.Valid, Accounted, Books, TearingBooks;
    ClosedChannelValid(r.ch, r.cfg.tracks, status);
    FinishAccounted(r, status);
    FinishBooks(r, status);
  }

  lemma TearingStarts(s: State, s1: State)
    requires Inv(s) && !s.ended && s1 == s.(ended := true, endTime := s1.endTime, endStatus := s1.endStatus, trigger := s1.trigger)
    ensures Tearing(s1)
  {
    hide SendQueue.Valid, Accounted;
    assert s1.Buffer() == s.Buffer();
  }

  lemma TerminateInv(s: State, status: int, tid: int, now: int)
    requires Inv(s)
    ensures Inv(Terminate(s, status, tid, now))
  {
    hide Inv, Tearing;
    if !s.ended {
      var s1 := s.(ended := true, endTime := now, endStatus := status, trigger := tid);
      TearingStarts(s, s1);
      ResetAllTearing(s1, MOQ_ERR_SEND_BUFFER_OVERFLOW);
      ResetAllKeepsQueue(s1, MOQ_ERR_SEND_BUFFER_OVERFLOW);
      var r := ResetAll(s1, MOQ_ERR_SEND_BUFFER_OVERFLOW);
      TerminateFinish(r, status);
      assert Terminate(s, status, tid, now) == Finish(r, status);
    }
  }

  // ---- Offering ----

  /** `f` is the next object of its track, and of its subgroup. */
  ghost predicate NextObject(s: State, k: Key, f: ObjectFrame) {
    && 0 <= k.tid < |s.cfg.tracks| && Framable(f)
    && f.trackId == k.tid && f.groupId == k.groupId && f.subgroupId == k.subgroupId
    && f.trackAlias == s.cfg.tracks[k.tid].alias
    && f.priority == s.cfg.tracks[k.tid].priority && f.objectId < Count(s.next, k.tid)
    && forall id :: id in s.ch.hist && s.ch.hist[id].key.tid == k.tid ==> Below(s.ch.hist[id].offered, f.objectId)
  }

  function Queued(s: State, k: Key, f: ObjectFrame): State
    requires 0 <= k.tid < |s.cfg.tracks|
  {
    Accepted(s.(ch := Accept(s.ch, 0, k, f, s.cfg.tracks[k.tid].deliveryTimeout)), k.tid)
  }

  lemma NextOfferable(s: State, k: Key, f: ObjectFrame)
    requires Tracks(s) && NextObject(s, k, f) && k !in s.ch.reset && Streams(s.ch)
    ensures Offerable(s.ch, 0, k, f)
  {
    if k in s.ch.open {
      var id := s.ch.open[k];
      assert id in s.ch.hist && s.ch.hist[id].key == k;
      assert StreamOfTrack(s, s.ch.hist[id]);
    }
  }

  lemma AcceptShape(c: Channel<Key>, k: Key, f: ObjectFrame, timeout: int)
    requires Streams(c) && k !in c.reset
    ensures var c1 := Accept(c, 0, k, f, timeout);
      && c1.queue == c.queue[0 := Insert(c.Items(0), NewItem(k, c1.open[k], f, timeout))]
      && c1.wire == c.wire && c1.reset == c.reset && c1.nextId == c.nextId + (if k in c.open then 0 else 4)
      && k in c1.open && (if k in c.open then c1.open[k] == c.open[k] else c1.open[k] !in c.hist)
      && c1.open[k] in c1.hist && c1.hist.Keys == c.hist.Keys + {c1.open[k]}
      && (forall id :: id in c.hist && id != c1.open[k] ==> c1.hist[id] == c.hist[id] && c1.IsOpen(id) == c.IsOpen(id))
      && var h := c1.hist[c1.open[k]];
         if k in c.open then h == c.hist[c.open[k]].(offered := c.hist[c.open[k]].offered + [f])
         else h == Stream(k, 0, f.priority, [f], [], f, 0)
  {
    hide Encode, Insert;
  }

  lemma QueuedAccounted(s: State, k: Key, f: ObjectFrame)
    requires Accounted(s.ch) && Streams(s.ch) && k !in s.ch.reset && 0 <= k.tid < |s.cfg.tracks|
    ensures Accounted(Queued(s, k, f).ch)
  {
    hide Accept, Insert, NewItem, Accounted;
    AcceptShape(s.ch, k, f, s.cfg.tracks[k.tid].deliveryTimeout);
    AccountedWith(s.ch, Queued(s, k, f).ch, k);
  }

  /** The open stream of `k`, new or not, is the only one its subgroup has. */
  lemma AccountedWith(c: Channel<Key>, c1: Channel<Key>, k: Key)
    requires Accounted(c) && k !in c.reset && k in c1.open && c1.open[k] in c1.hist && c1.hist[c1.open[k]].key == k
    requires c1.wire == c.wire && c1.reset == c.reset && c1.nextId % 4 == c.nextId % 4
    requires c1.hist.Keys == c.hist.Keys + {c1.open[k]} && (k in c.open ==> c1.open[k] == c.open[k])
    requires forall id :: id in c.hist && id != c1.open[k] ==> c1.hist[id] == c.hist[id] && c1.IsOpen(id) == c.IsOpen(id)
    ensures Accounted(c1)
  {
    hide WasReset;
    forall id | id in c1.hist && c1.hist[id].key == k
      ensures id == c1.open[k]
    {
      assert id != c1.open[k] ==> c.IsOpen(id);
    }
  }

  lemma QueuedStreams(s: State, k: Key, f: ObjectFrame)
    requires Tracks(s) && Streams(s.ch) && NextObject(s, k, f) && k !in s.ch.reset
    ensures var r := Queued(s, k, f);
      forall id :: id in r.ch.hist ==> StreamOfTrack(r, r.ch.hist[id])
  {
    hide Accept, Framable, Encode, Insert;
    AcceptShape(s.ch, k, f, s.cfg.tracks[k.tid].deliveryTimeout);
    var r := Queued(s, k, f);
    forall id | id in r.ch.hist
      ensures StreamOfTrack(r, r.ch.hist[id])
    {
      if id in s.ch.hist {
        assert StreamOfTrack(s, s.ch.hist[id]);
        if id == r.ch.open[k] {
          assert k in s.ch.open && s.ch.open[k] == id;
          assert s.ch.hist[id].key == k;
          forall g | g in r.ch.hist[id].offered
            ensures g in s.ch.hist[id].offered || g == f
          {
          }
        }
      }
    }
  }

  lemma InsertedItems(s: State, q: seq<Item<Key>>, item: Item<Key>)
    requires (forall i :: 0 <= i < |q| ==> ItemOfTrack(s, q[i])) && ItemOfTrack(s, item)
    ensures forall i :: 0 <= i < |Insert(q, item)| ==> ItemOfTrack(s, Insert(q, item)[i])
  {
  }

  lemma QueuedItems(s: State, k: Key, f: ObjectFrame)
    requires Tracks(s) && Streams(s.ch) && 0 <= k.tid < |s.cfg.tracks| && k !in s.ch.reset
    ensures var r := Queued(s, k, f);
      && r.ch.queue.Keys == {0} && r.cfg == s.cfg && r.next == s.next && r.outstanding == s.outstanding
      && forall i :: 0 <= i < |r.Buffer()| ==> ItemOfTrack(s, r.Buffer()[i])
  {
    var timeout := s.cfg.tracks[k.tid].deliveryTimeout;
    AcceptShape(s.ch, k, f, timeout);
    hide Accept, Encode, Streams, StreamOfTrack, Insert, OutstandingOk;
    InsertedItems(s, s.Buffer(), NewItem(k, Queued(s, k, f).ch.open[k], f, timeout));
  }

  lemma QueuedOutstanding(s: State, k: Key, f: ObjectFrame, o: Outstanding)
    requires OutstandingOk(s, o) && Streams(s.ch) && 0 <= k.tid < |s.cfg.tracks| && k !in s.ch.reset
    ensures OutstandingOk(Queued(s, k, f), o)
  {
    AcceptShape(s.ch, k, f, s.cfg.tracks[k.tid].deliveryTimeout);
    hide Accept, Encode, Insert;
  }

  lemma QueuedTracks(s: State, k: Key, f: ObjectFrame)
    requires Tracks(s) && Streams(s.ch) && NextObject(s, k, f) && k !in s.ch.reset
    ensures Tracks(Queued(s, k, f))
  {
    QueuedStreams(s, k, f);
    QueuedItems(s, k, f);
    hide Queued, NextObject, Streams, StreamOfTrack, OutstandingOk;
    var r := Queued(s, k, f);
    assert forall item :: ItemOfTrack(r, item) == ItemOfTrack(s, item);
    forall i | 0 <= i < |r.outstanding|
      ensures OutstandingOk(r, r.outstanding[i])
    {
      QueuedOutstanding(s, k, f, s.outstanding[i]);
    }
  }

  lemma QueuedBalanced(s: State, k: Key, f: ObjectFrame)
    requires Balanced(s) && Streams(s.ch) && 0 <= k.tid < |s.cfg.tracks| && k !in s.ch.reset
    ensures Balanced(Queued(s, k, f))
  {
    var timeout := s.cfg.tracks[k.tid].deliveryTimeout;
    AcceptShape(s.ch, k, f, timeout);
    hide Accept, Insert, Encode, Streams;
    var r := Queued(s, k, f);
    forall t
      ensures InBuffer(r.Buffer(), t) == InBuffer(s.Buffer(), t) + (if k.tid == t then 1 else 0)
    {
      InBufferInsert(s.Buffer(), NewItem(k, r.ch.open[k], f, timeout), t);
    }
  }

  lemma QueuedBooks(s: State, k: Key, f: ObjectFrame)
    requires Books(s) && Streams(s.ch) && NextObject(s, k, f) && k !in s.ch.reset && !s.ended
    ensures Books(Queued(s, k, f))
  {
    hide Tracks, Balanced, Causes, Teardown, Queued, Streams, NextObject;
    QueuedTracks(s, k, f);
    NextObjectTrack(s, k, f);
    QueuedBalanced(s, k, f);
    QueuedRest(s, k, f);
  }

  lemma NextObjectTrack(s: State, k: Key, f: ObjectFrame)
    requires NextObject(s, k, f)
    ensures 0 <= k.tid < |s.cfg.tracks|
  {
  }

  lemma QueuedRest(s: State, k: Key, f: ObjectFrame)
    requires Causes(s) && Teardown(s) && Streams(s.ch) && 0 <= k.tid < |s.cfg.tracks| && k !in s.ch.reset && !s.ended
    ensures var r := Queued(s, k, f);
      r.cfg == s.cfg && Causes(r) && Teardown(r)
  {
    hide Accept, Streams, Insert;
    AcceptShape(s.ch, k, f, s.cfg.tracks[k.tid].deliveryTimeout);
    assert forall t :: TimedTrack(Queued(s, k, f), t) == TimedTrack(s, t);
  }

  lemma QueuedInv(s: State, k: Key, f: ObjectFrame)
    requires Inv(s) && NextObject(s, k, f) && k !in s.ch.reset && !s.ended
    ensures Inv(Queued(s, k, f))
  {
    NextOfferable(s, k, f);
    QueuedBooks(s, k, f);
    QueuedAccounted(s, k, f);
    hide SendQueue.Valid, Accounted, Books, NextObject, Accept, Offerable;
    AcceptValid(s.ch, 0, k, f, s.cfg.tracks[k.tid].deliveryTimeout);
  }

  /** A counter moved on its own: an object of a reset subgroup is refused and charged to the reset. */
  lemma RefusedInv(s: State, k: Key)
    requires Inv(s) && !s.ended && k in s.ch.reset
    ensures Inv(Accepted(s.(stats := ChargeReset(s.stats, k.tid, s.ch.reset[k])), k.tid))
  {
    hide SendQueue.Valid, Accounted;
    var r := Accepted(s.(stats := ChargeReset(s.stats, k.tid, s.ch.reset[k])), k.tid);
    assert r.Buffer() == s.Buffer();
    assert forall t :: TimedTrack(r, t) == TimedTrack(s, t);
  }

  lemma SendObjectInv(s: State, f: ObjectFrame, tid: int, now: int, qlen: int)
    requires Inv(s) && Sound(s) && NextObject(s, Key(tid, f.groupId, f.subgroupId), f)
    ensures Inv(SendObject(s, f, tid, now, qlen))
  {
    var k := Key(tid, f.groupId, f.subgroupId);
    hide Inv;
    if s.ended {
    } else if k in s.ch.reset {
      RefusedInv(s, k);
    } else {
      QueuedInv(s, k, f);
      var r := Queued(s, k, f);
      TerminateInv(r, PUBDONE_TOO_FAR_BEHIND, tid, now);
      hide NextObject;
      var timeout := s.cfg.tracks[tid].deliveryTimeout;
      BufferedSound(s, k, f, timeout, now);
      FlushInv(Buffered(s, k, f, timeout, now), now, qlen);
    }
  }

  lemma AdvanceInv(s: State, tid: int)
    requires Inv(s) && Tracks(s)
    ensures Inv(s.(next := Bump(s.next, tid)))
  {
    hide SendQueue.Valid, Accounted;
    var r := s.(next := Bump(s.next, tid));
    assert r.Buffer() == s.Buffer();
    assert forall t :: TimedTrack(r, t) == TimedTrack(s, t);
    forall h | StreamOfTrack(s, h)
      ensures StreamOfTrack(r, h)
    {
    }
    assert ClosedWire(s) ==> ClosedWire(r);
  }

  lemma OfferedInv(s: State, offered: Counts)
    requires Inv(s)
    ensures Inv(s.(stats := s.stats.(offered := offered)))
  {
    hide SendQueue.Valid, Accounted;
    var r := s.(stats := s.stats.(offered := offered));
    assert r.Buffer() == s.Buffer();
    assert forall t :: TimedTrack(r, t) == TimedTrack(s, t);
    assert forall h :: StreamOfTrack(s, h) ==> StreamOfTrack(r, h);
    assert ClosedWire(s) ==> ClosedWire(r);
  }
}
