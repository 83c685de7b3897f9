/**
 What becomes of the publisher's objects: where they come from, when one leaves the buffer, when the
 subscriptions end, and what an event leaves to be done.
 */
module PublisherDelivery {
  import opened Bytes
  import opened MoqFraming
  import opened SendQueue
  import opened Publisher
  import opened PublisherInvariant
  import opened PublisherRuns
  import opened DeliveryTimeouts
  import Pacing

  // ---- Leaving the buffer ----

  /** The object as it was, or further along. */
  predicate SameObject(a: Item<Key>, b: Item<Key>) {
    b == a.(sentOffset := b.sentOffset)
  }

  ghost predicate Waits(q: seq<Item<Key>>, item: Item<Key>) {
    exists i :: 0 <= i < |q| && SameObject(item, q[i])
  }

  /** The object still waits, was written whole, is past its time, or went with its subgroup. */
  ghost predicate Settled(r: State, item: Item<Key>, now: int) {
    || Waits(r.Buffer(), item)
    || (item.stream in r.ch.hist && item.frame in r.ch.hist[item.stream].sent)
    || !InTime(item, now)
    || item.key in r.ch.reset
  }

  ghost predicate AllSettled(s: State, r: State, now: int) {
    forall i :: 0 <= i < |s.Buffer()| ==> Settled(r, s.Buffer()[i], now)
  }

  /** No object was offered on a stream, and what waited is settled. */
  ghost predicate Quiet(s: State, r: State, now: int) {
    && AllSettled(s, r, now) && Grows(s.ch, r.ch) && |r.Buffer()| <= |s.Buffer()|
    && r.ch.hist.Keys == s.ch.hist.Keys && (forall id :: id in s.ch.hist ==> r.ch.hist[id].offered == s.ch.hist[id].offered)
    && r.next == s.next && r.cfg == s.cfg && r.ended == s.ended
  }

  lemma SettledLater(t: State, r: State, item: Item<Key>, now: int)
    requires Settled(t, item, now) && AllSettled(t, r, now) && Grows(t.ch, r.ch)
    ensures Settled(r, item, now)
  {
    if Waits(t.Buffer(), item) {
      var i :| 0 <= i < |t.Buffer()| && SameObject(item, t.Buffer()[i]);
      var b := t.Buffer()[i];
      assert Settled(r, b, now);
      if Waits(r.Buffer(), b) {
        var j :| 0 <= j < |r.Buffer()| && SameObject(b, r.Buffer()[j]);
        assert SameObject(item, r.Buffer()[j]);
      }
    }
  }

  lemma AllSettledTransitive(s: State, t: State, r: State, now: int)
    requires AllSettled(s, t, now) && AllSettled(t, r, now) && Grows(t.ch, r.ch)
    ensures AllSettled(s, r, now)
  {
    hide Settled, Grows;
    forall i | 0 <= i < |s.Buffer()|
      ensures Settled(r, s.Buffer()[i], now)
    {
      SettledLater(t, r, s.Buffer()[i], now);
    }
  }

  lemma QuietTransitive(s: State, t: State, r: State, now: int)
    requires Quiet(s, t, now) && Quiet(t, r, now)
    ensures Quiet(s, r, now)
  {
    AllSettledTransitive(s, t, r, now);
    GrowsTransitive(s.ch, t.ch, r.ch);
    hide AllSettled, Grows;
  }

  /** Nothing happens to the queue, and streams are at most reset. */
  lemma QuietStep(s: State, r: State, now: int)
    requires r.Buffer() == s.Buffer() && Grows(s.ch, r.ch) && r.ch.hist == s.ch.hist
    requires r.next == s.next && r.cfg == s.cfg && r.ended == s.ended
    ensures Quiet(s, r, now)
  {
    hide Grows;
    forall i | 0 <= i < |s.Buffer()|
      ensures Settled(r, s.Buffer()[i], now)
    {
      assert SameObject(s.Buffer()[i], r.Buffer()[i]);
    }
  }

  lemma FlushStepQuiet(s: State, now: int)
    requires Inv(s) && Sound(s) && s.Buffer() != []
    ensures Quiet(s, FlushStep(s, now), now)
  {
    hide Inv, FlushStep, Grows, AllSettled, Work;
    FlushStepGrows(s, now);
    FlushStepShrinks(s, now);
    FlushStepBuffer(s, now);
    FlushStepOffered(s, now);
    FlushStepSettled(s, now);
  }

  lemma FlushStepSettled(s: State, now: int)
    requires Inv(s) && Sound(s) && s.Buffer() != []
    ensures AllSettled(s, FlushStep(s, now), now)
  {
    FlushTurn(s, now);
    FlushStepOffered(s, now);
    var r, q := FlushStep(s, now), s.Buffer();
    hide Inv, FlushStep, InTime, NextSlice, SliceLength, Plus;
    if q[0].key !in s.ch.reset && InTime(q[0], now) {
      TakenSettled(r, q, s.cfg.chunk, now);
    } else {
      RestSettled(r, q, now);
    }
  }

  lemma RestSettled(r: State, q: seq<Item<Key>>, now: int)
    requires q != [] && r.Buffer() == q[1..] && Settled(r, q[0], now)
    ensures forall i :: 0 <= i < |q| ==> Settled(r, q[i], now)
  {
    forall i | 0 < i < |q|
      ensures Waits(r.Buffer(), q[i])
    {
      assert SameObject(q[i], r.Buffer()[i - 1]);
    }
  }

  lemma TakenSettled(r: State, q: seq<Item<Key>>, chunk: int, now: int)
    requires q != [] && q[0].sentOffset < |q[0].bytes| && 0 < chunk && r.Buffer() == SliceTaken(q, chunk)
    requires q[0].sentOffset + SliceLength(q[0], chunk) == |q[0].bytes| ==> Settled(r, q[0], now)
    ensures forall i :: 0 <= i < |q| ==> Settled(r, q[i], now)
  {
    if q[0].sentOffset + SliceLength(q[0], chunk) == |q[0].bytes| {
      RestSettled(r, q, now);
    } else {
      forall i | 0 <= i < |q|
        ensures Waits(r.Buffer(), q[i])
      {
        assert SameObject(q[i], r.Buffer()[i]);
      }
    }
  }

  /** Writing records the object when it is whole, and offers none. */
  lemma FlushStepOffered(s: State, now: int)
    requires Inv(s) && Sound(s) && s.Buffer() != []
    ensures var r, first := FlushStep(s, now), s.Buffer()[0];
      && r.ch.hist.Keys == s.ch.hist.Keys && (forall id :: id in s.ch.hist ==> r.ch.hist[id].offered == s.ch.hist[id].offered)
      && (first.key in s.ch.reset ==> first.key in r.ch.reset)
      && (first.key !in s.ch.reset && InTime(first, now) && first.sentOffset + SliceLength(first, s.cfg.chunk) == |first.bytes| ==>
            first.stream in r.ch.hist && first.frame in r.ch.hist[first.stream].sent)
  {
    var first := s.Buffer()[0];
    StaleIffOverdue(first, now);
    hide Inv, InTime, FlushAbandoned, FlushWrite, ShedStaleAt, SliceLength;
    if first.key in s.ch.reset {
      AbandonedOffered(s);
    } else if first.Stale(now) {
      ShedStaleExact(s, 0);
    } else {
      WriteOffered(s);
    }
  }

  lemma AbandonedOffered(s: State)
    requires s.Buffer() != [] && s.Buffer()[0].key in s.ch.reset
    ensures FlushAbandoned(s).ch.hist == s.ch.hist && FlushAbandoned(s).ch.reset == s.ch.reset
  {
  }

  lemma WriteOffered(s: State)
    requires Inv(s) && Sound(s) && s.Buffer() != []
    ensures var r, first := FlushWrite(s), s.Buffer()[0];
      && r.ch.hist.Keys == s.ch.hist.Keys && (forall id :: id in s.ch.hist ==> r.ch.hist[id].offered == s.ch.hist[id].offered)
      && (first.sentOffset + SliceLength(first, s.cfg.chunk) == |first.bytes| ==>
            first.stream in r.ch.hist && first.frame in r.ch.hist[first.stream].sent)
  {
    FirstHasStream(s);
    hide Inv, Sound, WriteFront, FlushWrite, Encode, SliceLength;
    FirstUnfinished(s);
    RecordedWrite(s.ch, s.cfg.chunk);
    FlushWriteShape(s);
  }

  lemma FirstUnfinished(s: State)
    requires Sound(s) && s.Buffer() != []
    ensures Unfinished(s.Buffer()[0]) && 0 < s.cfg.chunk
  {
  }

  lemma RecordedWrite(c: Channel<Key>, chunk: int)
    requires 0 < chunk && 0 < |c.Items(0)| && Unfinished(c.Items(0)[0]) && c.Items(0)[0].stream in c.hist
    ensures var c1, first := WriteFront(c, 0, chunk), c.Items(0)[0];
      && c1.hist.Keys == c.hist.Keys && (forall id :: id in c.hist ==> c1.hist[id].offered == c.hist[id].offered)
      && (first.sentOffset + SliceLength(first, chunk) == |first.bytes| ==> first.frame in c1.hist[first.stream].sent)
  {
    hide WriteFront, Encode, SliceCommand;
    WriteFrontShape(c, 0, chunk);
  }

  lemma FirstHasStream(s: State)
    requires Inv(s) && s.Buffer() != []
    ensures s.Buffer()[0].stream in s.ch.hist
  {
    hide Wire, Discipline, Accounted, Books, Encode;
    assert ItemOk(s.ch, 0, s.Buffer()[0]);
  }

  lemma {:induction false} FlushLoopQuiet(s: State, now: int, qlen: int)
    requires Inv(s) && Sound(s)
    ensures Quiet(s, FlushLoop(s, now, qlen), now)
    decreases Work(s.Buffer())
  {
    hide Inv, FlushStep, Quiet, Work;
    if s.blocked || s.Buffer() == [] || qlen + s.eventBytes >= s.cfg.queueLimit {
      GrowsReflexive(s.ch);
      QuietStep(s, s, now);
    } else {
      FlushStepShrinks(s, now);
      FlushStepInv(s, now);
      FlushStepQuiet(s, now);
      FlushLoopQuiet(FlushStep(s, now), now, qlen);
      QuietTransitive(s, FlushStep(s, now), FlushLoop(s, now, qlen), now);
    }
  }

  lemma FlushQuiet(s: State, now: int, qlen: int)
    requires Inv(s) && Sound(s)
    ensures Quiet(s, Flush(s, now, qlen), now)
  {
    hide Inv, Quiet, FlushLoop;
    PacingInv(s, s.blocked, now, 0);
    GrowsReflexive(s.ch);
    QuietStep(s, EnterEvent(s, now), now);
    FlushLoopQuiet(EnterEvent(s, now), now, qlen);
    QuietTransitive(s, EnterEvent(s, now), Flush(s, now, qlen), now);
  }

  lemma SweepQuiet(s: State, now: int)
    requires Inv(s)
    ensures Quiet(s, Sweep(s, now), now)
  {
    hide Inv, InTime, Timely, Overdue, TimeoutResets, SweepFrom;
    GrowsReflexive(s.ch);
    if s.ended {
      QuietStep(s, s, now);
    } else {
      var r := Sweep(s, now);
      SweepExact(s, now);
      TimelyShorter(s.Buffer(), now);
      SweepGrows(s, 0, now);
      SweepKeepsOffers(s, 0, now);
      hide Grows;
      forall i | 0 <= i < |s.Buffer()|
        ensures Settled(r, s.Buffer()[i], now)
      {
        var item := s.Buffer()[i];
        if InTime(item, now) {
          assert item in r.Buffer();
          var j :| 0 <= j < |r.Buffer()| && r.Buffer()[j] == item;
          assert SameObject(item, r.Buffer()[j]);
        }
      }
    }
  }

  lemma {:induction false} TimelyShorter(q: seq<Item<Key>>, now: int)
    ensures |Timely(q, now)| <= |q|
  {
    if q != [] {
      TimelyShorter(q[1..], now);
    }
  }

  lemma {:induction false} ExpireKeepsQueue(s: State, i: nat, now: int)
    requires i <= |s.outstanding|
    ensures var r := ExpireFrom(s, i, now);
      r.ch.queue == s.ch.queue && r.ch.hist == s.ch.hist
    decreases |s.outstanding| - i
  {
    if i < |s.outstanding| {
      if s.outstanding[i].key in s.ch.reset {
        ExpireKeepsQueue(s.(outstanding := Remove(s.outstanding, i)), i, now);
      } else if now - s.outstanding[i].createdAt > s.outstanding[i].timeout {
        ExpireKeepsQueue(ExpireAt(s, i), i, now);
      } else {
        ExpireKeepsQueue(s, i + 1, now);
      }
    }
  }

  lemma CheckOutstandingQuiet(s: State, now: int, qlen: int)
    requires Inv(s)
    ensures Quiet(s, CheckOutstanding(s, now, qlen), now)
  {
    hide Inv, Quiet, Grows;
    GrowsReflexive(s.ch);
    ExpireGrows(s, 0, now);
    ExpireKeepsQueue(s, 0, now);
    ExpireKeepsOffers(s, 0, now);
    hide ExpireFrom;
    QuietStep(s, CheckOutstanding(s, now, qlen), now);
  }

  // ---- Offering ----

  /** Nothing but `f` was offered, and that at most once, on a stream of its subgroup. */
  ghost predicate OfferedOnly(c: Channel<Key>, d: Channel<Key>, f: ObjectFrame) {
    forall id :: id in d.hist ==>
      var before := if id in c.hist then c.hist[id].offered else [];
      || (id in c.hist && d.hist[id].offered == before)
      || (d.hist[id].offered == before + [f] && d.hist[id].key == Key(f.trackId, f.groupId, f.subgroupId))
  }

  /** `f` is the latest object offered on the stream of its subgroup. */
  ghost predicate JustOffered(c: Channel<Key>, f: ObjectFrame) {
    exists id :: id in c.hist && c.hist[id].key == Key(f.trackId, f.groupId, f.subgroupId)
      && c.hist[id].offered != [] && c.hist[id].offered[|c.hist[id].offered| - 1] == f
  }

  lemma QueuedOffers(s: State, k: Key, f: ObjectFrame, now: int)
    requires Inv(s) && k !in s.ch.reset && 0 <= k.tid < |s.cfg.tracks| && k == Key(f.trackId, f.groupId, f.subgroupId)
    ensures var r := Queued(s, k, f);
      && OfferedOnly(s.ch, r.ch, f) && JustOffered(r.ch, f) && AllSettled(s, r, now)
      && |r.Buffer()| == |s.Buffer()| + 1 && r.cfg == s.cfg && r.ended == s.ended && r.next == s.next && k in r.ch.open
      && (forall j :: j in s.ch.open ==> j in r.ch.open)
  {
    InvStreams(s);
    hide Inv, Accept, Queued, AllSettled, OfferedOnly, JustOffered, Streams;
    QueuedWaits(s, k, f, now);
    QueuedOnStream(s, k, f);
    QueuedOpen(s, k, f);
  }

  lemma QueuedWaits(s: State, k: Key, f: ObjectFrame, now: int)
    requires Streams(s.ch) && k !in s.ch.reset && 0 <= k.tid < |s.cfg.tracks|
    ensures var r := Queued(s, k, f);
      AllSettled(s, r, now) && |r.Buffer()| == |s.Buffer()| + 1
  {
    var r, timeout := Queued(s, k, f), s.cfg.tracks[k.tid].deliveryTimeout;
    hide Accept, Insert, InsertPosition, NewItem, InTime, Streams;
    AcceptShape(s.ch, k, f, timeout);
    forall i | 0 <= i < |s.Buffer()|
      ensures Waits(r.Buffer(), s.Buffer()[i])
    {
      var j := StillThere(s.Buffer(), NewItem(k, r.ch.open[k], f, timeout), i);
      assert SameObject(s.Buffer()[i], r.Buffer()[j]);
    }
  }

  lemma QueuedOnStream(s: State, k: Key, f: ObjectFrame)
    requires Streams(s.ch) && k !in s.ch.reset && 0 <= k.tid < |s.cfg.tracks| && k == Key(f.trackId, f.groupId, f.subgroupId)
    ensures var r := Queued(s, k, f);
      && OfferedOnly(s.ch, r.ch, f) && JustOffered(r.ch, f) && k in r.ch.open
      && r.cfg == s.cfg && r.ended == s.ended && r.next == s.next
  {
    hide Accept, Insert, NewItem;
    AcceptShape(s.ch, k, f, s.cfg.tracks[k.tid].deliveryTimeout);
    var r := Queued(s, k, f);
    var h := r.ch.hist[r.ch.open[k]];
    assert h.offered[|h.offered| - 1] == f && h.key == k;
  }

  lemma QueuedOpen(s: State, k: Key, f: ObjectFrame)
    requires 0 <= k.tid < |s.cfg.tracks|
    ensures forall j :: j in s.ch.open ==> j in Queued(s, k, f).ch.open
  {
    hide Insert, NewItem;
  }

  /** Every subgroup with an open stream, or reset for that reason already, ends up reset for it. */
  ghost predicate AllResetFor(s: State, r: State, code: int) {
    && (forall k :: k in s.ch.open ==> k in r.ch.reset && r.ch.reset[k] == code)
    && (forall k :: k in s.ch.reset && s.ch.reset[k] == code ==> k in r.ch.reset && r.ch.reset[k] == code)
  }

  lemma {:induction false} ResetAllCodes(s: State, code: int)
    ensures AllResetFor(s, ResetAll(s, code), code)
    decreases |s.ch.open|
  {
    hide ResetAll, ResetSubgroup;
    if s.ch.open == map[] {
      NothingToReset(s, code);
    } else {
      var k := NextReset(s, code);
      var r := ResetSubgroup(s, k, s.ch.open[k], code);
      ResetAllCodes(r, code);
    }
  }

  lemma NothingToReset(s: State, code: int)
    requires s.ch.open == map[]
    ensures ResetAll(s, code) == s
  {
  }

  lemma NextReset(s: State, code: int) returns (k: Key)
    requires s.ch.open != map[]
    ensures k in s.ch.open
    ensures var r := ResetSubgroup(s, k, s.ch.open[k], code);
      && ResetAll(s, code) == ResetAll(r, code)
      && r.ch.open == s.ch.open - {k} && r.ch.reset == s.ch.reset[k := code] && |r.ch.open| < |s.ch.open|
  {
    FirstExists(s.ch.open.Keys);
    k :| IsFirst(k, s.ch.open.Keys) && ResetAll(s, code) == ResetAll(ResetSubgroup(s, k, s.ch.open[k], code), code);
    OneKeyLess(s.ch.open, k);
    hide ResetAll, IsFirst;
  }

  lemma OneKeyLess(m: map<Key, int>, k: Key)
    requires k in m
    ensures |m - {k}| < |m|
  {
    assert m.Keys == (m - {k}).Keys + {k};
  }

  /** The end of all subscriptions: nothing waits any more, and every open stream is reset for the overflow. */
  ghost predicate Overflowed(s: State, r: State, now: int) {
    && r.ended && r.endStatus == 0x6 && r.endTime == now
    && r.Buffer() == [] && r.outstanding == [] && r.ch.open == map[] && r.ch.hist == s.ch.hist
    && (forall k :: k in s.ch.open ==> k in r.ch.reset && r.ch.reset[k] == 0x100)
    && r.next == s.next && r.cfg == s.cfg
  }

  lemma TerminateOverflows(s: State, tid: int, now: int)
    requires !s.ended
    ensures Overflowed(s, Terminate(s, PUBDONE_TOO_FAR_BEHIND, tid, now), now)
  {
    var s1 := s.(ended := true, endTime := now, endStatus := PUBDONE_TOO_FAR_BEHIND, trigger := tid);
    ResetAllKeepsQueue(s1, MOQ_ERR_SEND_BUFFER_OVERFLOW);
    ResetAllCodes(s1, MOQ_ERR_SEND_BUFFER_OVERFLOW);
    hide ResetAll, CountAll, DoneMessages;
  }

  /** The next object is queued; one object more than the buffer may hold ends the subscriptions. */
  lemma BufferedExact(s: State, k: Key, f: ObjectFrame, timeout: int, now: int)
    requires Inv(s) && !s.ended && k !in s.ch.reset && 0 <= k.tid < |s.cfg.tracks| && k == Key(f.trackId, f.groupId, f.subgroupId)
    requires timeout == s.cfg.tracks[k.tid].deliveryTimeout
    ensures var b := Buffered(s, k, f, timeout, now);
      && OfferedOnly(s.ch, b.ch, f) && JustOffered(b.ch, f)
      && (b.ended <==> |s.Buffer()| + 1 > s.cfg.bufferLimit)
      && b.next == s.next && b.cfg == s.cfg
      && (!b.ended ==> AllSettled(s, b, now) && |b.Buffer()| <= s.cfg.bufferLimit)
      && (b.ended ==> Overflowed(Queued(s, k, f), b, now))
  {
    hide Inv, Accept, Terminate, AllSettled, Overflowed;
    QueuedOffers(s, k, f, now);
    TerminateOverflows(Queued(s, k, f), k.tid, now);
    BufferedCases(s, k, f, timeout, now);
    if |s.Buffer()| + 1 > s.cfg.bufferLimit {
      OverflowedKeeps(Queued(s, k, f), Buffered(s, k, f, timeout, now), now);
    }
  }

  lemma BufferedCases(s: State, k: Key, f: ObjectFrame, timeout: int, now: int)
    requires 0 <= k.tid < |s.cfg.tracks| && timeout == s.cfg.tracks[k.tid].deliveryTimeout
    ensures var q := Queued(s, k, f);
      Buffered(s, k, f, timeout, now) == if |q.Buffer()| <= s.cfg.bufferLimit then q else Terminate(q, PUBDONE_TOO_FAR_BEHIND, k.tid, now)
  {
    hide Accept, Terminate;
  }

  lemma OverflowedKeeps(s: State, r: State, now: int)
    requires Overflowed(s, r, now)
    ensures r.ended && r.ch.hist == s.ch.hist && r.next == s.next && r.cfg == s.cfg
  {
  }

  lemma OfferedThenQuiet(s: State, b: State, r: State, f: ObjectFrame, now: int)
    requires OfferedOnly(s.ch, b.ch, f) && Quiet(b, r, now)
    ensures OfferedOnly(s.ch, r.ch, f)
    ensures JustOffered(b.ch, f) ==> JustOffered(r.ch, f)
    ensures AllSettled(s, b, now) ==> AllSettled(s, r, now)
  {
    if AllSettled(s, b, now) {
      AllSettledTransitive(s, b, r, now);
    }
    hide AllSettled;
    if JustOffered(b.ch, f) {
      var id :| id in b.ch.hist && b.ch.hist[id].key == Key(f.trackId, f.groupId, f.subgroupId)
        && b.ch.hist[id].offered != [] && b.ch.hist[id].offered[|b.ch.hist[id].offered| - 1] == f;
      assert r.ch.hist[id].offered == b.ch.hist[id].offered && r.ch.hist[id].key == b.ch.hist[id].key;
    }
  }

  /**
   * One object of a burst. It is refused when the subscriptions have ended or its subgroup was reset, else
   * offered on its subgroup's stream; and it ends the subscriptions exactly when it is one too many. No other
   * object is offered, and while the subscriptions last none leaves the buffer but as an event may make it.
   */
  lemma OfferOneExact(s: State, tid: int, groupId: int, now: int, qlen: int)
    requires Inv(s) && Sound(s) && 0 <= tid < |s.cfg.tracks| && Framable(FrameOf(s, tid, groupId, now))
    ensures var r, t := OfferOne(s, tid, groupId, now, qlen), s.cfg.tracks[tid];
      var f := ObjectFrame(tid, groupId, 0, Count(s.next, tid), t.priority, t.packetSize, now, t.alias);
      && OfferedOnly(s.ch, r.ch, f) && (s.ended ==> r.ch == s.ch)
      && (!s.ended && Key(tid, groupId, 0) !in s.ch.reset ==> JustOffered(r.ch, f))
      && (!s.ended && Key(tid, groupId, 0) in s.ch.reset ==> r.ch == s.ch)
      && (!s.ended ==> (r.ended <==> Key(tid, groupId, 0) !in s.ch.reset && |s.Buffer()| + 1 > s.cfg.bufferLimit))
      && (s.ended ==> r.ended)
      && (!r.ended ==> AllSettled(s, r, now) && (|s.Buffer()| <= s.cfg.bufferLimit ==> |r.Buffer()| <= s.cfg.bufferLimit))
      && r.next == Bump(s.next, tid) && r.cfg == s.cfg
  {
    hide Inv, NextObject, Framable, Buffered, Grows, AllSettled, Flush, OfferedOnly, JustOffered;
    var f, k := FrameOf(s, tid, groupId, now), Key(tid, groupId, 0);
    var s1 := s.(next := Bump(s.next, tid));
    NextObjectOf(s, tid, groupId, now);
    NothingOffered(s, OfferOne(s, tid, groupId, now, qlen), f, now);
    if !s.ended && k !in s.ch.reset {
      var timeout := s.cfg.tracks[tid].deliveryTimeout;
      BufferedExact(s1, k, f, timeout, now);
      BufferedInv(s1, k, f, timeout, now);
      BufferedSound(s1, k, f, timeout, now);
      var b := Buffered(s1, k, f, timeout, now);
      FlushQuiet(b, now, qlen);
      OfferedThenQuiet(s1, b, Flush(b, now, qlen), f, now);
      SameBuffer(s, s1, Flush(b, now, qlen), OfferOne(s, tid, groupId, now, qlen), now);
    }
  }

  /** Only the channel matters for what is offered and settled. */
  lemma SameBuffer(s: State, s1: State, r: State, r1: State, now: int)
    requires s1.ch == s.ch && r1.ch == r.ch
    ensures AllSettled(s1, r, now) ==> AllSettled(s, r1, now)
  {
    if AllSettled(s1, r, now) {
      forall i | 0 <= i < |s.Buffer()|
        ensures Settled(r1, s.Buffer()[i], now)
      {
        assert Settled(r, s1.Buffer()[i], now);
      }
    }
  }

  lemma NothingOffered(s: State, r: State, f: ObjectFrame, now: int)
    ensures r.ch == s.ch ==> OfferedOnly(s.ch, r.ch, f) && AllSettled(s, r, now)
  {
    if r.ch == s.ch {
      forall i | 0 <= i < |s.Buffer()|
        ensures Waits(r.Buffer(), s.Buffer()[i])
      {
        assert SameObject(s.Buffer()[i], r.Buffer()[i]);
      }
    }
  }

  /** The `j`th object of its track, emitted in a burst at `now` for the given group. */
  function Emitted(cfg: Config, tid: int, groupId: int, now: int, j: int): ObjectFrame
    requires 0 <= tid < |cfg.tracks|
  {
    var t := cfg.tracks[tid];
    ObjectFrame(tid, groupId, 0, j, t.priority, t.packetSize, now, t.alias)
  }

  ghost predicate OfBurst(cfg: Config, tid: int, groupId: int, now: int, lo: int, hi: int, f: ObjectFrame)
    requires 0 <= tid < |cfg.tracks|
  {
    lo <= f.objectId < hi && f == Emitted(cfg, tid, groupId, now, f.objectId)
  }

  /** Only objects of the burst were offered. */
  ghost predicate BurstOnly(c: Channel<Key>, d: Channel<Key>, cfg: Config, tid: int, groupId: int, now: int, lo: int, hi: int)
    requires 0 <= tid < |cfg.tracks|
  {
    forall id, f :: id in d.hist && f in d.hist[id].offered ==>
      (id in c.hist && f in c.hist[id].offered) || OfBurst(cfg, tid, groupId, now, lo, hi, f)
  }

  lemma BurstStarts(c: Channel<Key>, m: Channel<Key>, d: Channel<Key>, cfg: Config, tid: int, groupId: int, now: int, lo: int, hi: int)
    requires 0 <= tid < |cfg.tracks| && lo < hi
    requires OfferedOnly(c, m, Emitted(cfg, tid, groupId, now, lo)) && BurstOnly(m, d, cfg, tid, groupId, now, lo + 1, hi)
    ensures BurstOnly(c, d, cfg, tid, groupId, now, lo, hi)
  {
    var e := Emitted(cfg, tid, groupId, now, lo);
    forall id, f | id in d.hist && f in d.hist[id].offered
      ensures (id in c.hist && f in c.hist[id].offered) || OfBurst(cfg, tid, groupId, now, lo, hi, f)
    {
      if id in m.hist && f in m.hist[id].offered {
        var before := if id in c.hist then c.hist[id].offered else [];
        assert m.hist[id].offered == before || m.hist[id].offered == before + [e];
        if f == e {
          assert OfBurst(cfg, tid, groupId, now, lo, hi, f);
        }
      } else {
        assert OfBurst(cfg, tid, groupId, now, lo + 1, hi, f);
      }
    }
  }

  /** A burst of `n` objects: their ids follow on, and nothing else is offered. */
  lemma {:induction false} OfferManyExact(s: State, tid: int, groupId: int, n: nat, now: int, qlen: int)
    requires Inv(s) && Sound(s) && 0 <= tid < |s.cfg.tracks| && Fits(s, tid, groupId, n, now)
    ensures var r, lo := OfferMany(s, tid, groupId, n, now, qlen), Count(s.next, tid);
      && BurstOnly(s.ch, r.ch, s.cfg, tid, groupId, now, lo, lo + n)
      && (s.ended ==> r.ended)
      && (!r.ended ==> AllSettled(s, r, now) && (|s.Buffer()| <= s.cfg.bufferLimit ==> |r.Buffer()| <= s.cfg.bufferLimit))
      && (forall t :: Count(r.next, t) == Count(s.next, t) + if t == tid then n else 0) && r.cfg == s.cfg
    decreases n
  {
    hide Inv, Framable, OfferOne, AllSettled, OfferedOnly, JustOffered, BurstOnly, Grows, Fits;
    if n == 0 {
      NoBurst(s, tid, groupId, now);
    } else {
      FirstFits(s, tid, groupId, n, now);
      OfferOneExact(s, tid, groupId, now, qlen);
      OfferOneGrows(s, tid, groupId, n, now, qlen);
      var one, r := OfferOne(s, tid, groupId, now, qlen), OfferMany(s, tid, groupId, n, now, qlen);
      BumpCounts(s.next, tid);
      OfferManyExact(one, tid, groupId, n - 1, now, qlen);
      OfferManyGrows(one, tid, groupId, n - 1, now, qlen);
      BurstStarts(s.ch, one.ch, r.ch, s.cfg, tid, groupId, now, Count(s.next, tid), Count(s.next, tid) + n);
      if !r.ended {
        AllSettledTransitive(s, one, r, now);
      }
    }
  }

  lemma FirstFits(s: State, tid: int, groupId: int, n: nat, now: int)
    requires 0 <= tid < |s.cfg.tracks| && 0 < n && Fits(s, tid, groupId, n, now)
    ensures Framable(FrameOf(s, tid, groupId, now))
  {
    hide Framable;
    assert FrameAhead(s, tid, groupId, now, 0) == FrameOf(s, tid, groupId, now);
  }

  lemma NoBurst(s: State, tid: int, groupId: int, now: int)
    requires 0 <= tid < |s.cfg.tracks|
    ensures BurstOnly(s.ch, s.ch, s.cfg, tid, groupId, now, Count(s.next, tid), Count(s.next, tid)) && AllSettled(s, s, now)
  {
    forall i | 0 <= i < |s.Buffer()|
      ensures Waits(s.Buffer(), s.Buffer()[i])
    {
      assert SameObject(s.Buffer()[i], s.Buffer()[i]);
    }
  }

  // ---- Events ----

  function TimeOf(e: Event): int {
    match e
    case Group(_, now, _) => now
    case TimeoutCheck(now, _) => now
    case QueueFull => 0
    case QueueDrained(now, _) => now
  }

  lemma TimeoutCheckQuiet(s: State, now: int, qlen: int)
    requires Inv(s) && Sound(s)
    ensures Quiet(s, OnTimeoutCheck(s, now, qlen), now)
  {
    hide Inv, Quiet, ExpireFrom, SweepFrom, FlushLoop, Sweep;
    var s1 := CheckOutstanding(s, now, qlen);
    CheckOutstandingQuiet(s, now, qlen);
    CheckOutstandingInv(s, now, qlen);
    ExpireFromSound(s, 0, now);
    SweptSound(s1, now);
    SweepQuiet(s1, now);
    var s2 := Sweep(s1, now);
    FlushQuiet(s2, now, qlen);
    QuietTransitive(s, s1, s2, now);
    QuietTransitive(s, s2, Flush(s2, now, qlen), now);
  }

  lemma SweptSound(s: State, now: int)
    requires Inv(s) && Sound(s)
    ensures Inv(Sweep(s, now)) && Sound(Sweep(s, now))
  {
    hide Inv;
    SweepFromSound(s, 0, now);
    SweepFromInv(s, 0, now);
  }

  /**
   * An object leaves the buffer unsent only when its time is over, when its subgroup was reset, or in the
   * teardown, which only a burst can bring about; and the buffer keeps within its limit.
   */
  lemma LeavesOnlyLateOrReset(s: State, e: Event)
    requires Inv(s) && Sound(s) && EventFits(s, e)
    ensures var r := Step(s, e);
      && (s.ended ==> r.ended) && (r.ended && !s.ended ==> e.Group?)
      && (!r.ended ==>
            && (forall item :: item in s.Buffer() ==>
                  || (exists i :: 0 <= i < |r.Buffer()| && r.Buffer()[i] == item.(sentOffset := r.Buffer()[i].sentOffset))
                  || (item.stream in r.ch.hist && item.frame in r.ch.hist[item.stream].sent)
                  || (item.timeout > 0 && TimeOf(e) > item.createdAt + item.timeout)
                  || item.key in r.ch.reset)
            && (|s.Buffer()| <= s.cfg.bufferLimit ==> |r.Buffer()| <= s.cfg.bufferLimit))
  {
    StepSettles(s, e);
    hide Inv, Step, Sound, EventFits, AllSettled;
    var r := Step(s, e);
    if !r.ended {
      AllAreSettled(s, r, TimeOf(e));
    }
  }

  lemma AllAreSettled(s: State, r: State, now: int)
    requires AllSettled(s, r, now)
    ensures forall item :: item in s.Buffer() ==>
      || (exists i :: 0 <= i < |r.Buffer()| && r.Buffer()[i] == item.(sentOffset := r.Buffer()[i].sentOffset))
      || (item.stream in r.ch.hist && item.frame in r.ch.hist[item.stream].sent)
      || (item.timeout > 0 && now > item.createdAt + item.timeout)
      || item.key in r.ch.reset
  {
    forall item | item in s.Buffer()
      ensures Settled(r, item, now)
    {
      var i :| 0 <= i < |s.Buffer()| && s.Buffer()[i] == item;
    }
  }

  lemma StepSettles(s: State, e: Event)
    requires Inv(s) && Sound(s) && EventFits(s, e)
    ensures var r := Step(s, e);
      && (s.ended ==> r.ended) && (r.ended && !s.ended ==> e.Group?)
      && (!r.ended ==> AllSettled(s, r, TimeOf(e)) && (|s.Buffer()| <= s.cfg.bufferLimit ==> |r.Buffer()| <= s.cfg.bufferLimit))
  {
    hide Inv, AllSettled, Grows, OfferMany, OnTimeoutCheck, Flush, BurstOnly, Fits;
    match e
    case Group(tid, now, qlen) =>
      NoBurstAtAll(s, now);
      if !s.ended && 0 <= tid < |s.cfg.tracks| {
        var n := s.cfg.tracks[tid].PerGroup();
        OfferManyExact(s, tid, Count(s.next, tid) / n, n, now, qlen);
      }
    case TimeoutCheck(now, qlen) =>
      TimeoutCheckQuiet(s, now, qlen);
    case QueueFull =>
      NoBurstAtAll(s, 0);
      SameBuffer(s, s, s, Step(s, e), 0);
    case QueueDrained(now, qlen) =>
      var s1 := s.(blocked := false);
      PacingInv(s, false, s.writeEvent, s.eventBytes);
      FlushQuiet(s1, now, qlen);
      SameBuffer(s, s1, Flush(s1, now, qlen), Flush(s1, now, qlen), now);
  }

  lemma NoBurstAtAll(s: State, now: int)
    ensures AllSettled(s, s, now)
  {
    NothingOffered(s, s, ObjectFrame(0, 0, 0, 0, 0, 0, 0, []), now);
  }

  // ---- Where the objects come from ----

  /** How many bursts of a track the events ask for. */
  function BurstsOf(es: seq<Event>, tid: int): nat {
    if es == [] then 0 else
      var last := es[|es| - 1];
      BurstsOf(es[..|es| - 1], tid) + if last.Group? && last.tid == tid then 1 else 0
  }

  /**
   * The event at `i` emitted the object: it is of that event's track and time, of the group numbered by the
   * bursts before, and that is its id divided by the number of objects in a group.
   */
  ghost predicate EmittedAt(cfg: Config, es: seq<Event>, i: nat, f: ObjectFrame) {
    && i < |es| && es[i].Group? && 0 <= es[i].tid < |cfg.tracks|
    && var (e, t) := (es[i], cfg.tracks[es[i].tid]);
    && var n := if t.objectsPerGroup > 0 then t.objectsPerGroup else 1;
    && f == ObjectFrame(e.tid, BurstsOf(es[..i], e.tid), 0, f.objectId, t.priority, t.packetSize, e.now, t.alias)
    && f.objectId / n == f.groupId
  }

  ghost predicate EmittedIn(cfg: Config, es: seq<Event>, f: ObjectFrame) {
    exists i: nat :: EmittedAt(cfg, es, i, f)
  }

  ghost predicate Produced(s: State, es: seq<Event>) {
    && (forall id, f :: id in s.ch.hist && f in s.ch.hist[id].offered ==> EmittedIn(s.cfg, es, f))
    && (!s.ended ==> forall t :: 0 <= t < |s.cfg.tracks| ==> Count(s.next, t) == s.cfg.tracks[t].PerGroup() * BurstsOf(es, t))
  }

  lemma EmittedStill(cfg: Config, es: seq<Event>, e: Event, f: ObjectFrame)
    requires EmittedIn(cfg, es, f)
    ensures EmittedIn(cfg, es + [e], f)
  {
    var i: nat :| EmittedAt(cfg, es, i, f);
    assert (es + [e])[..i] == es[..i] && (es + [e])[i] == es[i];
    assert EmittedAt(cfg, es + [e], i, f);
  }

  lemma BurstsMore(es: seq<Event>, e: Event, tid: int)
    ensures BurstsOf(es + [e], tid) == BurstsOf(es, tid) + if e.Group? && e.tid == tid then 1 else 0
  {
    assert (es + [e])[..|es|] == es;
  }

  /** Within a group of `n` all ids have the number of the group as their quotient. */
  lemma SameQuotient(n: nat, g: nat, id: int)
    requires 0 < n && n * g <= id < n * g + n
    ensures id / n == g && (n * g) / n == g
  {
    var rest := id - n * g;
    assert id == g * n + rest && n * g == g * n;
    DivideOff(n, g, rest);
    DivideOff(n, g, 0);
  }

  lemma DivideOff(n: nat, g: nat, rest: nat)
    requires 0 < n && rest < n
    ensures (g * n + rest) / n == g
  {
    var q := (g * n + rest) / n;
    var r := (g * n + rest) % n;
    assert q * n + r == g * n + rest;
    if q > g {
      MulAtLeast(q, g + 1, n);
    } else if q < g {
      MulAtLeast(g, q + 1, n);
    }
  }

  lemma MulAtLeast(a: nat, b: nat, n: nat)
    requires a >= b
    ensures a * n >= b * n
  {
  }

  lemma BurstEmitted(cfg: Config, es: seq<Event>, e: Event, f: ObjectFrame)
    requires e.Group? && 0 <= e.tid < |cfg.tracks|
    requires var n := cfg.tracks[e.tid].PerGroup();
      var lo := n * BurstsOf(es, e.tid);
      OfBurst(cfg, e.tid, lo / n, e.now, lo, lo + n, f)
    ensures EmittedIn(cfg, es + [e], f)
  {
    var n, g := cfg.tracks[e.tid].PerGroup(), BurstsOf(es, e.tid);
    SameQuotient(n, g, f.objectId);
    assert (es + [e])[..|es|] == es && (es + [e])[|es|] == e;
    assert EmittedAt(cfg, es + [e], |es|, f);
  }

  lemma GroupProduced(s: State, es: seq<Event>, e: Event)
    requires Inv(s) && Sound(s) && Produced(s, es) && EventFits(s, e) && e.Group? && !s.ended && 0 <= e.tid < |s.cfg.tracks|
    ensures Produced(Step(s, e), es + [e]) && Step(s, e).cfg == s.cfg
  {
    hide Inv, Sound, OfferMany, AllSettled, BurstOnly, Fits, Grows;
    var tid, n := e.tid, s.cfg.tracks[e.tid].PerGroup();
    var lo := Count(s.next, tid);
    OfferManyExact(s, tid, lo / n, n, e.now, e.qlen);
    var r := OfferMany(s, tid, lo / n, n, e.now, e.qlen);
    assert Step(s, e) == r;
    hide EmittedIn, Step;
    FramesEmitted(s, r, es, e);
    CountsMore(s, r, es, e);
  }

  lemma FramesEmitted(s: State, r: State, es: seq<Event>, e: Event)
    requires Produced(s, es) && !s.ended && e.Group? && 0 <= e.tid < |s.cfg.tracks|
    requires var n, lo := s.cfg.tracks[e.tid].PerGroup(), Count(s.next, e.tid);
      BurstOnly(s.ch, r.ch, s.cfg, e.tid, lo / n, e.now, lo, lo + n)
    ensures forall id, f :: id in r.ch.hist && f in r.ch.hist[id].offered ==> EmittedIn(s.cfg, es + [e], f)
  {
    hide EmittedIn, OfBurst;
    forall id, f | id in r.ch.hist && f in r.ch.hist[id].offered
      ensures EmittedIn(s.cfg, es + [e], f)
    {
      if id in s.ch.hist && f in s.ch.hist[id].offered {
        EmittedStill(s.cfg, es, e, f);
      } else {
        BurstEmitted(s.cfg, es, e, f);
      }
    }
  }

  lemma CountsMore(s: State, r: State, es: seq<Event>, e: Event)
    requires Produced(s, es) && !s.ended && e.Group? && 0 <= e.tid < |s.cfg.tracks|
    requires forall t :: Count(r.next, t) == Count(s.next, t) + if t == e.tid then s.cfg.tracks[e.tid].PerGroup() else 0
    ensures forall t :: 0 <= t < |s.cfg.tracks| ==> Count(r.next, t) == s.cfg.tracks[t].PerGroup() * BurstsOf(es + [e], t)
  {
    hide EmittedIn, BurstsOf, Count;
    forall t | 0 <= t < |s.cfg.tracks|
      ensures Count(r.next, t) == s.cfg.tracks[t].PerGroup() * BurstsOf(es + [e], t)
    {
      BurstsMore(es, e, t);
      OneMore(s.cfg.tracks[t].PerGroup(), BurstsOf(es, t));
    }
  }

  lemma OneMore(n: nat, g: nat)
    ensures n * (g + 1) == n * g + n
  {
  }

  /** An event that offers nothing. */
  lemma QuietProduced(s: State, r: State, es: seq<Event>, e: Event)
    requires Produced(s, es) && r.cfg == s.cfg && (s.ended ==> r.ended)
    requires forall id :: id in r.ch.hist ==> id in s.ch.hist && r.ch.hist[id].offered == s.ch.hist[id].offered
    requires !r.ended ==> r.next == s.next && (e.Group? ==> !(0 <= e.tid < |s.cfg.tracks|))
    ensures Produced(r, es + [e])
  {
    hide EmittedIn;
    forall id, f | id in r.ch.hist && f in r.ch.hist[id].offered
      ensures EmittedIn(s.cfg, es + [e], f)
    {
      EmittedStill(s.cfg, es, e, f);
    }
    forall t | 0 <= t < |s.cfg.tracks|
      ensures BurstsOf(es + [e], t) == BurstsOf(es, t) || (e.Group? && e.tid == t)
    {
      BurstsMore(es, e, t);
    }
  }

  lemma StepProduced(s: State, es: seq<Event>, e: Event)
    requires Inv(s) && Sound(s) && Produced(s, es) && EventFits(s, e)
    ensures Produced(Step(s, e), es + [e])
  {
    hide Inv, Sound, Produced, OnTimeoutCheck, OfferMany, FlushLoop, AllSettled, Grows;
    if s.ended {
      SilentAfterTeardown(s, e);
      StepKeepsCfg(s, e);
      QuietProduced(s, Step(s, e), es, e);
    } else {
      match e
      case Group(tid, now, qlen) =>
        if 0 <= tid < |s.cfg.tracks| {
          GroupProduced(s, es, e);
        } else {
          QuietProduced(s, s, es, e);
        }
      case TimeoutCheck(now, qlen) =>
        TimeoutCheckQuiet(s, now, qlen);
        QuietProduced(s, Step(s, e), es, e);
      case QueueFull =>
        QuietProduced(s, Step(s, e), es, e);
      case QueueDrained(now, qlen) =>
        DrainedOffers(s, now, qlen);
        QuietProduced(s, Step(s, e), es, e);
    }
  }

  lemma DrainedOffers(s: State, now: int, qlen: int)
    requires Inv(s) && Sound(s)
    ensures var r := Step(s, QueueDrained(now, qlen));
      && r.ch.hist.Keys == s.ch.hist.Keys && (forall id :: id in s.ch.hist ==> r.ch.hist[id].offered == s.ch.hist[id].offered)
      && r.next == s.next && r.cfg == s.cfg && r.ended == s.ended
  {
    hide Inv, AllSettled, Grows, FlushLoop;
    PacingInv(s, false, s.writeEvent, s.eventBytes);
    FlushQuiet(s.(blocked := false), now, qlen);
  }

  lemma StepKeepsCfg(s: State, e: Event)
    requires Sound(s)
    ensures Step(s, e).cfg == s.cfg
  {
    hide OfferGroup, OnTimeoutCheck, FlushLoop;
    match e
    case Group(tid, now, qlen) =>
      OfferGroupKeepsConfig(s, tid, now, qlen);
    case TimeoutCheck(now, qlen) =>
      TimeoutCheckKeepsOffers(s, now, qlen);
    case QueueFull =>
    case QueueDrained(now, qlen) =>
  }

  lemma {:induction false} RunProduced(s: State, done: seq<Event>, es: seq<Event>)
    requires Inv(s) && Sound(s) && Produced(s, done) && RunFits(s, es)
    ensures Produced(Run(s, es), done + es) && Run(s, es).cfg == s.cfg
    decreases |es|
  {
    hide Inv, Sound, Produced, EventFits, Step;
    if es == [] {
      assert done + [] == done;
    } else {
      StepInv(s, es[0]);
      StepKeepsCfg(s, es[0]);
      StepProduced(s, done, es[0]);
      RunProduced(Step(s, es[0]), done + [es[0]], es[1..]);
      assert done + [es[0]] + es[1..] == done + es;
    }
  }

  /**
   * In every run every object on a stream was emitted by a burst of its track: its creation time is that of
   * the burst, its group is numbered by the bursts before and is its id divided by the size of a group, and
   * its other fields are those of the track.
   */
  lemma ObjectsComeFromBursts(cfg: Config, es: seq<Event>, id: int, f: ObjectFrame)
    requires 0 < cfg.chunk && RunFits(Initial(cfg), es)
    requires id in Run(Initial(cfg), es).ch.hist && f in Run(Initial(cfg), es).ch.hist[id].offered
    ensures exists i: nat :: EmittedAt(cfg, es, i, f)
  {
    InitialInv(cfg);
    NothingProduced(cfg);
    RunProduced(Initial(cfg), [], es);
    hide *;
    assert [] + es == es;
    ProducedFrom(Run(Initial(cfg), es), cfg, es, id, f);
  }

  lemma NothingProduced(cfg: Config)
    ensures Produced(Initial(cfg), [])
  {
  }

  lemma ProducedFrom(s: State, cfg: Config, es: seq<Event>, id: int, f: ObjectFrame)
    requires Produced(s, es) && s.cfg == cfg && id in s.ch.hist && f in s.ch.hist[id].offered
    ensures exists i: nat :: EmittedAt(cfg, es, i, f)
  {
    hide EmittedAt;
    assert EmittedIn(cfg, es, f);
  }

  lemma {:induction false} BufferBounded(s: State, es: seq<Event>)
    requires Inv(s) && Sound(s) && RunFits(s, es) && |s.Buffer()| <= s.cfg.bufferLimit
    ensures |Run(s, es).Buffer()| <= s.cfg.bufferLimit
    decreases |es|
  {
    hide Inv, Sound, EventFits, Step;
    if es != [] {
      StepInv(s, es[0]);
      StepKeepsCfg(s, es[0]);
      StepSettles(s, es[0]);
      EndedEmpty(Step(s, es[0]));
      BufferBounded(Step(s, es[0]), es[1..]);
    }
  }

  lemma EndedEmpty(s: State)
    requires Inv(s)
    ensures s.ended ==> s.Buffer() == []
  {
    hide SendQueue.Valid, Accounted, Tracks, Causes, Balanced;
  }

  /** In every run the buffer holds no more objects than it may. */
  lemma BufferWithinLimit(cfg: Config, es: seq<Event>)
    requires 0 < cfg.chunk && 0 <= cfg.bufferLimit && RunFits(Initial(cfg), es)
    ensures |Run(Initial(cfg), es).Buffer()| <= cfg.bufferLimit
  {
    InitialInv(cfg);
    hide Inv, RunFits, Run;
    BufferBounded(Initial(cfg), es);
  }

  // ---- Objects already written ----

  predicate PastTime(o: Outstanding, now: int) {
    now > o.createdAt + o.timeout
  }

  /** From position `i` on, what was found past its time has its subgroup reset, and only that. */
  ghost predicate Expired(s: State, r: State, i: nat, now: int)
    requires i <= |s.outstanding|
  {
    && (forall k :: k in r.ch.reset <==> k in s.ch.reset || exists j :: i <= j < |s.outstanding| && s.outstanding[j].key == k && PastTime(s.outstanding[j], now))
    && (forall k :: k in r.ch.reset ==> r.ch.reset[k] == if k in s.ch.reset then s.ch.reset[k] else 0x2)
    && (forall o :: o in r.outstanding ==> exists j :: 0 <= j < |s.outstanding| && s.outstanding[j] == o && (j < i || StillTimed(s, o, now)))
    && (forall j :: 0 <= j < |s.outstanding| && (j < i || s.outstanding[j].key !in r.ch.reset) ==> s.outstanding[j] in r.outstanding)
    && r.ch.queue == s.ch.queue && r.ch.hist == s.ch.hist
  }

  predicate StillTimed(s: State, o: Outstanding, now: int) {
    !PastTime(o, now) && o.key !in s.ch.reset
  }

  lemma {:induction false} ExpireFromExact(s: State, i: nat, now: int)
    requires i <= |s.outstanding|
    ensures Expired(s, ExpireFrom(s, i, now), i, now)
    decreases |s.outstanding| - i
  {
    hide Expired, Remove, ExpireAt;
    if i == |s.outstanding| {
      NothingExpired(s, now);
    } else if s.outstanding[i].key in s.ch.reset {
      var t := s.(outstanding := Remove(s.outstanding, i));
      ExpireFromExact(t, i, now);
      ExpiredAfterRemoval(s, t, ExpireFrom(t, i, now), i, now);
    } else if now - s.outstanding[i].createdAt > s.outstanding[i].timeout {
      var t := ExpireAt(s, i);
      ExpireAtExact(s, i);
      ExpireFromExact(t, i, now);
      ExpiredAfterRemoval(s, t, ExpireFrom(t, i, now), i, now);
    } else {
      ExpireFromExact(s, i + 1, now);
      ExpiredOneKept(s, ExpireFrom(s, i + 1, now), i, now);
    }
  }

  lemma ExpireAtExact(s: State, i: nat)
    requires i < |s.outstanding|
    ensures var t := ExpireAt(s, i);
      && t.outstanding == Remove(s.outstanding, i) && t.ch.reset == s.ch.reset[s.outstanding[i].key := 0x2]
      && t.ch.queue == s.ch.queue && t.ch.hist == s.ch.hist
  {
    hide Remove;
  }

  lemma NothingExpired(s: State, now: int)
    ensures Expired(s, s, |s.outstanding|, now)
  {
  }

  lemma ExpiredOneKept(s: State, r: State, i: nat, now: int)
    requires i < |s.outstanding| && StillTimed(s, s.outstanding[i], now) && Expired(s, r, i + 1, now)
    ensures Expired(s, r, i, now)
  {
  }

  /** The entry at `i` goes; its subgroup was reset before, or is now because the entry is past its time. */
  ghost predicate Gone(s: State, t: State, i: nat, now: int) {
    && i < |s.outstanding| && t.outstanding == Remove(s.outstanding, i)
    && (var o := s.outstanding[i];
        if o.key in s.ch.reset then t.ch.reset == s.ch.reset
        else PastTime(o, now) && t.ch.reset == s.ch.reset[o.key := 0x2])
    && t.ch.queue == s.ch.queue && t.ch.hist == s.ch.hist
  }

  lemma ExpiredAfterRemoval(s: State, t: State, r: State, i: nat, now: int)
    requires Gone(s, t, i, now) && Expired(t, r, i, now)
    ensures Expired(s, r, i, now)
  {
    ResetAfterRemoval(s, t, r, i, now);
    OriginAfterRemoval(s, t, r, i, now);
    KeptAfterRemoval(s, t, r, i, now);
    CodesAfterRemoval(s, t, r, i, now);
    hide PastTime, StillTimed, Remove;
  }

  lemma ResetAfterRemoval(s: State, t: State, r: State, i: nat, now: int)
    requires Gone(s, t, i, now) && Expired(t, r, i, now)
    ensures forall k :: k in r.ch.reset <==> k in s.ch.reset || exists j :: i <= j < |s.outstanding| && s.outstanding[j].key == k && PastTime(s.outstanding[j], now)
  {
    ResetCause(s, t, r, i, now);
    ResetOfLate(s, t, r, i, now);
    hide PastTime, StillTimed, Remove;
    assert forall k :: k in s.ch.reset ==> k in t.ch.reset;
  }

  lemma ResetCause(s: State, t: State, r: State, i: nat, now: int)
    requires Gone(s, t, i, now) && Expired(t, r, i, now)
    ensures forall k :: k in r.ch.reset && k !in s.ch.reset ==>
      exists j :: i <= j < |s.outstanding| && s.outstanding[j].key == k && PastTime(s.outstanding[j], now)
  {
    hide PastTime, StillTimed;
    var os := s.outstanding;
    forall k | k in r.ch.reset && k !in s.ch.reset
      ensures exists j :: i <= j < |os| && os[j].key == k && PastTime(os[j], now)
    {
      if k !in t.ch.reset {
        var j :| i <= j < |t.outstanding| && t.outstanding[j].key == k && PastTime(t.outstanding[j], now);
        assert os[j + 1] == t.outstanding[j];
      } else {
        assert os[i].key == k;
      }
    }
  }

  lemma ResetOfLate(s: State, t: State, r: State, i: nat, now: int)
    requires Gone(s, t, i, now) && Expired(t, r, i, now)
    ensures forall j :: i <= j < |s.outstanding| && PastTime(s.outstanding[j], now) ==> s.outstanding[j].key in r.ch.reset
  {
    hide PastTime, StillTimed;
    forall j | i <= j < |s.outstanding| && PastTime(s.outstanding[j], now)
      ensures s.outstanding[j].key in r.ch.reset
    {
      if j > i {
        assert t.outstanding[j - 1] == s.outstanding[j];
      }
    }
  }

  lemma CodesAfterRemoval(s: State, t: State, r: State, i: nat, now: int)
    requires Gone(s, t, i, now) && Expired(t, r, i, now)
    ensures forall k :: k in r.ch.reset ==> r.ch.reset[k] == if k in s.ch.reset then s.ch.reset[k] else 0x2
  {
    hide PastTime, StillTimed, Remove;
  }

  lemma OriginAfterRemoval(s: State, t: State, r: State, i: nat, now: int)
    requires Gone(s, t, i, now) && Expired(t, r, i, now)
    ensures forall o :: o in r.outstanding ==> exists j :: 0 <= j < |s.outstanding| && s.outstanding[j] == o && (j < i || StillTimed(s, o, now))
  {
    hide PastTime;
    forall o | o in r.outstanding
      ensures exists j :: 0 <= j < |s.outstanding| && s.outstanding[j] == o && (j < i || StillTimed(s, o, now))
    {
      var j :| 0 <= j < |t.outstanding| && t.outstanding[j] == o && (j < i || StillTimed(t, o, now));
      assert s.outstanding[if j < i then j else j + 1] == o;
    }
  }

  lemma KeptAfterRemoval(s: State, t: State, r: State, i: nat, now: int)
    requires Gone(s, t, i, now) && Expired(t, r, i, now)
    ensures forall j :: 0 <= j < |s.outstanding| && (j < i || s.outstanding[j].key !in r.ch.reset) ==> s.outstanding[j] in r.outstanding
  {
    hide PastTime, StillTimed;
    assert s.outstanding[i].key in t.ch.reset;
    assert s.outstanding[i].key in r.ch.reset;
    forall j | 0 <= j < |s.outstanding| && j != i && (j < i || s.outstanding[j].key !in r.ch.reset)
      ensures s.outstanding[j] in r.outstanding
    {
      assert t.outstanding[if j < i then j else j - 1] == s.outstanding[j];
    }
  }

  /**
   * What was written and may still be under way: unless QUIC holds nothing any more, exactly the subgroups of
   * objects past their time are reset, and an object in time whose subgroup is not stays watched.
   */
  lemma ExpiryExact(s: State, now: int, qlen: int)
    ensures var r := CheckOutstanding(s, now, qlen);
      && r.ch.queue == s.ch.queue && r.ch.hist == s.ch.hist
      && (qlen == 0 ==> r.outstanding == [] && r.ch == s.ch)
      && (qlen != 0 ==>
            && (forall k :: k in r.ch.reset <==> k in s.ch.reset || exists o :: o in s.outstanding && o.key == k && now > o.createdAt + o.timeout)
            && (forall k :: k in r.ch.reset ==> r.ch.reset[k] == if k in s.ch.reset then s.ch.reset[k] else 0x2)
            && (forall o :: o in r.outstanding ==> o in s.outstanding && now <= o.createdAt + o.timeout && o.key !in s.ch.reset)
            && (forall o :: o in s.outstanding && o.key !in r.ch.reset ==> o in r.outstanding))
  {
    ExpireFromExact(s, 0, now);
    hide ExpireFrom;
    var r := ExpireFrom(s, 0, now);
    forall k | k in r.ch.reset && k !in s.ch.reset
      ensures exists o :: o in s.outstanding && o.key == k && now > o.createdAt + o.timeout
    {
      var j :| 0 <= j < |s.outstanding| && s.outstanding[j].key == k && PastTime(s.outstanding[j], now);
      assert s.outstanding[j] in s.outstanding;
    }
    forall o | o in s.outstanding
      ensures exists j :: 0 <= j < |s.outstanding| && s.outstanding[j] == o
    {
    }
  }

  // ---- Blocked ----

  /** No data was written, and QUIC is as full as it was. */
  predicate Still(s: State, r: State) {
    Pacing.DataBytes(r.ch.wire) == Pacing.DataBytes(s.ch.wire) && r.blocked == s.blocked && r.cfg == s.cfg
  }

  lemma ResetStill(s: State, r: State, stream: int, code: int)
    requires r.blocked == s.blocked && r.cfg == s.cfg
    requires r.ch.wire == s.ch.wire || r.ch.wire == s.ch.wire + [Reset(stream, code)]
    ensures Still(s, r)
  {
    Pacing.DataBytesAppend(s.ch.wire, Reset(stream, code));
  }

  lemma {:induction false} ExpireStill(s: State, i: nat, now: int)
    requires i <= |s.outstanding|
    ensures Still(s, ExpireFrom(s, i, now))
    decreases |s.outstanding| - i
  {
    hide Remove, Pacing.DataBytes;
    if i < |s.outstanding| {
      if s.outstanding[i].key in s.ch.reset {
        ExpireStill(s.(outstanding := Remove(s.outstanding, i)), i, now);
      } else if now - s.outstanding[i].createdAt > s.outstanding[i].timeout {
        ResetStill(s, ExpireAt(s, i), s.outstanding[i].stream, MOQ_ERR_DELIVERY_TIMEOUT);
        ExpireStill(ExpireAt(s, i), i, now);
      } else {
        ExpireStill(s, i + 1, now);
      }
    }
  }

  lemma {:induction false} SweepStill(s: State, i: nat, now: int)
    requires i <= |s.Buffer()|
    ensures Still(s, SweepFrom(s, i, now))
    decreases |s.Buffer()| - i
  {
    hide Remove, Pacing.DataBytes, Bump;
    if i < |s.Buffer()| {
      if s.Buffer()[i].Stale(now) {
        ResetStill(s, ShedStaleAt(s, i), s.Buffer()[i].stream, MOQ_ERR_DELIVERY_TIMEOUT);
        SweepStill(ShedStaleAt(s, i), i, now);
      } else {
        SweepStill(s, i + 1, now);
      }
    }
  }

  lemma BlockedFlush(s: State, now: int, qlen: int)
    requires Sound(s) && s.blocked
    ensures Still(s, Flush(s, now, qlen))
  {
    hide Pacing.DataBytes;
  }

  lemma TerminateStill(s: State, status: int, tid: int, now: int)
    ensures Still(s, Terminate(s, status, tid, now))
  {
    hide Pacing.DataBytes, ResetAll, CountAll, DoneMessages;
    if !s.ended {
      var s1 := s.(ended := true, endTime := now, endStatus := status, trigger := tid);
      Pacing.ResetAllQuiet(s1, MOQ_ERR_SEND_BUFFER_OVERFLOW);
      ResetAllKeepsQueue(s1, MOQ_ERR_SEND_BUFFER_OVERFLOW);
      var r := ResetAll(s1, MOQ_ERR_SEND_BUFFER_OVERFLOW);
      Pacing.DonesQuiet(r.ch.wire, s.cfg.tracks, status, |s.cfg.tracks|);
    }
  }

  lemma BufferedStill(s: State, k: Key, f: ObjectFrame, timeout: int, now: int)
    ensures Still(s, Buffered(s, k, f, timeout, now))
  {
    hide Pacing.DataBytes, Terminate, Insert, Encode;
    var r := Accepted(s.(ch := Accept(s.ch, 0, k, f, timeout)), k.tid);
    assert r.ch.wire == s.ch.wire && r.blocked == s.blocked && r.cfg == s.cfg;
    TerminateStill(r, PUBDONE_TOO_FAR_BEHIND, k.tid, now);
  }

  lemma OfferOneStill(s: State, tid: int, groupId: int, now: int, qlen: int)
    requires Sound(s) && 0 <= tid < |s.cfg.tracks| && s.blocked
    ensures Still(s, OfferOne(s, tid, groupId, now, qlen))
  {
    hide Pacing.DataBytes, Buffered, Flush, AllUnfinished;
    var f, k := FrameOf(s, tid, groupId, now), Key(tid, groupId, 0);
    var s1 := s.(next := Bump(s.next, tid));
    if !s.ended && k !in s.ch.reset {
      var timeout := s.cfg.tracks[tid].deliveryTimeout;
      BufferedSound(s1, k, f, timeout, now);
      BufferedStill(s1, k, f, timeout, now);
      BlockedFlush(Buffered(s1, k, f, timeout, now), now, qlen);
    }
  }

  lemma {:induction false} OfferManyStill(s: State, tid: int, groupId: int, n: nat, now: int, qlen: int)
    requires Sound(s) && 0 <= tid < |s.cfg.tracks| && s.blocked
    ensures Still(s, OfferMany(s, tid, groupId, n, now, qlen))
    decreases n
  {
    hide Pacing.DataBytes, OfferOne, Sound;
    if n > 0 {
      OfferOneStill(s, tid, groupId, now, qlen);
      OfferManyStill(OfferOne(s, tid, groupId, now, qlen), tid, groupId, n - 1, now, qlen);
    }
  }

  /** Once QUIC is full nothing is written, whatever happens, until its drained signal; and that leaves nothing
      to write unless the queue is at its limit. */
  lemma BlockedUntilDrained(s: State, e: Event)
    requires Sound(s)
    ensures e.QueueFull? ==> Step(s, e).blocked
    ensures s.blocked && !e.QueueDrained? ==> Step(s, e).blocked && Pacing.DataBytes(Step(s, e).ch.wire) == Pacing.DataBytes(s.ch.wire)
    ensures e.QueueDrained? ==>
      var r := Step(s, e);
      !r.blocked && (r.Buffer() == [] || e.qlen + r.eventBytes >= r.cfg.queueLimit)
  {
    hide Pacing.DataBytes, OfferMany, ExpireFrom, SweepFrom, FlushLoop, AllUnfinished;
    match e
    case Group(tid, now, qlen) =>
      if s.blocked && 0 <= tid < |s.cfg.tracks| {
        var n := s.cfg.tracks[tid].PerGroup();
        OfferManyStill(s, tid, Count(s.next, tid) / n, n, now, qlen);
      }
    case TimeoutCheck(now, qlen) =>
      if s.blocked {
        TimeoutCheckStill(s, now, qlen);
      }
    case QueueFull =>
    case QueueDrained(now, qlen) =>
      Pacing.FlushEnds(s.(blocked := false), now, qlen);
  }

  lemma TimeoutCheckStill(s: State, now: int, qlen: int)
    requires Sound(s) && s.blocked
    ensures Still(s, OnTimeoutCheck(s, now, qlen))
  {
    hide Pacing.DataBytes, ExpireFrom, SweepFrom, Flush, AllUnfinished;
    var s1 := CheckOutstanding(s, now, qlen);
    ExpireStill(s, 0, now);
    ExpireFromSound(s, 0, now);
    SweepStill(s1, 0, now);
    SweepFromSound(s1, 0, now);
    BlockedFlush(Sweep(s1, now), now, qlen);
  }
}
