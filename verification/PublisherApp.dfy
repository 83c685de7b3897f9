/** MoqPublisherApp over QUIC: the fields it updates in place and the methods that update them. */
module PublisherApp {
  import opened Bytes
  import opened MoqFraming
  import opened SendQueue
  import opened PriorityBuffer
  import opened Publisher

  class MoqPublisherApp {
    const cfg: Config

    var subgroupStreams: map<Key, int>
    var resetSubgroups: map<Key, int>
    var nextStreamId: int

    var sendBuffer: seq<Bucket<Key>>
    var sendBufferCount: int
    var outstanding: seq<Outstanding>

    var quicBlocked: bool
    var quicWriteEvent: int
    var quicBytesThisEvent: int

    var subscriptionsEnded: bool
    var terminationTime: int
    var terminationStatus: int

    var nextObjectId: Counts
    var stats: Stats

    /** Every command given to the socket, in order. */
    var wire: seq<Command>

    // What happened on each stream, and whose burst ended the subscriptions: recorded for the theorems.
    ghost var hist: map<int, Stream<Key>>
    ghost var trigger: int

    /** The state of Publisher.dfy that this object is in. */
    ghost function Now(): State
      reads this
    {
      State(cfg,
            Channel(subgroupStreams, resetSubgroups, nextStreamId, map[0 := Flatten(sendBuffer)], wire, hist),
            outstanding, quicBlocked, quicWriteEvent, quicBytesThisEvent,
            subscriptionsEnded, terminationTime, terminationStatus, trigger, nextObjectId, stats)
    }

    ghost predicate Valid()
      reads this
    {
      ValidBuckets(sendBuffer) && sendBufferCount == |Flatten(sendBuffer)| && Sound(Now())
    }

    constructor (cfg: Config)
      requires 0 < cfg.chunk
      ensures Valid() && Now() == Initial(cfg)
    {
      this.cfg := cfg;
      subgroupStreams, resetSubgroups, nextStreamId := map[], map[], 4;
      sendBuffer, sendBufferCount, outstanding := [], 0, [];
      quicBlocked, quicWriteEvent, quicBytesThisEvent := false, -1, 0;
      subscriptionsEnded, terminationTime, terminationStatus, trigger := false, 0, 0, -1;
      nextObjectId, stats := map[], Stats(map[], map[], map[], map[], map[], map[], 0, 0);
      wire, hist := [], map[];
    }

    method ResetSubgroupStream(key: Key, streamId: int, errorCode: int)
      requires Valid()
      modifies this
      ensures Valid() && Now() == ResetSubgroup(old(Now()), key, streamId, errorCode)
      ensures sendBuffer == old(sendBuffer)
    {
      hide AllUnfinished, ValidBuckets;
      wire := wire + [Reset(streamId, errorCode)];
      resetSubgroups := resetSubgroups[key := errorCode];
      subgroupStreams := subgroupStreams - {key};
      stats := stats.(subgroupResets := stats.subgroupResets + 1);
    }

    /** Reset every open stream, walking a copy of the map in key order. */
    method ResetOpenStreams(errorCode: int)
      requires Valid()
      modifies this
      ensures Valid() && Now() == ResetAll(old(Now()), errorCode)
      ensures sendBuffer == old(sendBuffer)
    {
      ghost var start := Now();
      var openStreams := subgroupStreams;
      while openStreams != map[]
        invariant Valid() && sendBuffer == old(sendBuffer)
        invariant openStreams == subgroupStreams == Now().ch.open
        invariant ResetAll(Now(), errorCode) == ResetAll(start, errorCode)
        decreases |openStreams|
      {
        FirstExists(openStreams.Keys);
        var key :| key in openStreams.Keys && IsFirst(key, openStreams.Keys);
        ghost var before := Now();
        ResetAllStep(before, key, errorCode);
        assert openStreams.Keys == (openStreams - {key}).Keys + {key};
        ResetSubgroupStream(key, openStreams[key], errorCode);
        openStreams := openStreams - {key};
      }
    }

    /** Count everything still buffered as lost to the teardown. */
    method CountDiscarded()
      requires Valid()
      modifies this`stats
      ensures stats == old(stats).(
                shedOverflow := CountAll(old(stats).shedOverflow, Flatten(sendBuffer)),
                shedAtTeardown := old(stats).shedAtTeardown + |Flatten(sendBuffer)|)
    {
      ghost var all := Flatten(sendBuffer);
      var overflow, discarded := stats.shedOverflow, 0;
      for i := 0 to |sendBuffer|
        invariant CountAll(overflow, Flatten(sendBuffer[i..])) == CountAll(stats.shedOverflow, all)
        invariant discarded + |Flatten(sendBuffer[i..])| == |all|
      {
        var queue := sendBuffer[i].queue;
        ghost var rest := Flatten(sendBuffer[i + 1..]);
        assert Flatten(sendBuffer[i..]) == queue + rest;
        for j := 0 to |queue|
          invariant CountAll(overflow, queue[j..] + rest) == CountAll(stats.shedOverflow, all)
          invariant discarded + |queue| - j + |rest| == |all|
        {
          assert (queue[j..] + rest)[0] == queue[j] && (queue[j..] + rest)[1..] == queue[j + 1..] + rest;
          overflow := Bump(overflow, queue[j].key.tid);
          discarded := discarded + 1;
        }
        assert queue[|queue|..] + rest == rest;
      }
      stats := stats.(shedOverflow := overflow, shedAtTeardown := stats.shedAtTeardown + discarded);
    }

    /** One PUBLISH_DONE per announced track. */
    method SendPublishDones(statusCode: int)
      modifies this`wire
      ensures wire == old(wire) + DoneMessages(cfg.tracks, statusCode, |cfg.tracks|)
    {
      for t := 0 to |cfg.tracks|
        invariant wire == old(wire) + DoneMessages(cfg.tracks, statusCode, t)
      {
        wire := wire + [PublishDone(0, t, cfg.tracks[t].alias, statusCode)];
      }
    }

    /** Drop what is buffered and outstanding and announce the end. */
    method DiscardAndAnnounce(statusCode: int)
      requires Valid()
      modifies this`stats, this`sendBuffer, this`sendBufferCount, this`outstanding, this`wire
      ensures sendBuffer == [] && sendBufferCount == 0 && outstanding == []
      ensures wire == old(wire) + DoneMessages(cfg.tracks, statusCode, |cfg.tracks|)
      ensures stats == old(stats).(
                shedOverflow := CountAll(old(stats).shedOverflow, Flatten(old(sendBuffer))),
                shedAtTeardown := old(stats).shedAtTeardown + |Flatten(old(sendBuffer))|)
    {
      hide CountAll, DoneMessages, AllUnfinished;
      CountDiscarded();
      SendPublishDones(statusCode);
      sendBuffer, sendBufferCount, outstanding := [], 0, [];
    }

    method FinishSubscriptions(statusCode: int)
      requires Valid()
      modifies this`stats, this`sendBuffer, this`sendBufferCount, this`outstanding, this`wire
      ensures Valid() && Now() == Finish(old(Now()), statusCode)
    {
      hide CountAll, DoneMessages, AllUnfinished, ValidBuckets, Finish;
      FinishFields(Now(), statusCode);
      DiscardAndAnnounce(statusCode);
      NothingQueued();
    }

    method TerminateSubscriptions(statusCode: int, ghost tid: int, now: int)
      requires Valid()
      modifies this
      ensures Valid() && Now() == Terminate(old(Now()), statusCode, tid, now)
    {
      if subscriptionsEnded {
        return;
      }
      subscriptionsEnded, terminationTime, terminationStatus := true, now, statusCode;
      trigger := tid;
      assert Now() == old(Now()).(ended := true, endTime := now, endStatus := statusCode, trigger := tid);
      hide Now, Finish, ValidBuckets, AllUnfinished;
      ghost var start := Now();
      ResetOpenStreams(MOQ_ERR_SEND_BUFFER_OVERFLOW);
      FinishSubscriptions(statusCode);
    }
  
    /** Buffer an object; beyond the limit the subscriptions are over. */
    method EnqueuePending(item: Item<Key>, now: int)
      requires Valid() && Unfinished(item)
      modifies this
      ensures Valid()
      ensures var b := old(Now()).(ch := old(Now()).ch.(queue := map[0 := Insert(old(Now()).Buffer(), item)]));
        Now() == if |b.Buffer()| <= cfg.bufferLimit then b
                 else Terminate(b, PUBDONE_TOO_FAR_BEHIND, item.key.tid, now)
    {
      assert AllUnfinished(Insert(Flatten(sendBuffer), item)) by { InsertUnfinished(Flatten(sendBuffer), item); }
      hide Insert, AllUnfinished, ValidBuckets, Terminate;
      sendBuffer := PushBack(sendBuffer, item);
      sendBufferCount := sendBufferCount + 1;
      if sendBufferCount <= cfg.bufferLimit {
        return;
      }
      TerminateSubscriptions(PUBDONE_TOO_FAR_BEHIND, item.key.tid, now);
    }

    /** Hand the next slice of `p` to QUIC. Returns `p` with its offset advanced. */
    method DoSendQuicChunk(p: Item<Key>) returns (after: Item<Key>)
      requires Unfinished(p) && 0 < cfg.chunk
      modifies this`wire, this`hist, this`outstanding, this`stats
      ensures after == p.(sentOffset := p.sentOffset + ChunkSize(p, cfg.chunk))
      ensures wire == old(wire) + [SliceCommand(p, cfg.chunk)]
      ensures hist == HistAfter(old(hist), p, after.sentOffset)
      ensures outstanding == OutstandingAfter(old(outstanding), p, after.sentOffset)
      ensures stats == StatsAfter(old(stats), p, after.sentOffset)
    {
      var remaining := |p.bytes| - p.sentOffset;
      var n := Min(remaining, cfg.chunk);
      wire := wire + [Send(p.stream, p.bytes[p.sentOffset..p.sentOffset + n], QuicPriorityOf(p.priority))];
      after := p.(sentOffset := p.sentOffset + n);
      hist := HistAfter(hist, p, after.sentOffset);
      if after.sentOffset == |after.bytes| {
        if p.timeout > 0 {
          outstanding := outstanding + [Outstanding(p.key, p.stream, p.createdAt, p.timeout)];
        }
        stats := stats.(sent := Bump(stats.sent, p.key.tid));
      }
    }

    method PopFront()
      requires Valid() && sendBuffer != [] && sendBuffer[0].queue != []
      modifies this`sendBuffer, this`sendBufferCount
      ensures Valid() && Now().ch == Drop(old(Now()).ch, 0, 0)
      ensures Flatten(sendBuffer) == Remove(Flatten(old(sendBuffer)), 0)
    {
      RemoveUnfinished(Flatten(sendBuffer), 0);
      hide AllUnfinished, ValidBuckets;
      sendBuffer := PopFirst(sendBuffer);
      sendBufferCount := sendBufferCount - 1;
      assert map[0 := Flatten(old(sendBuffer))][0 := Flatten(sendBuffer)] == map[0 := Flatten(sendBuffer)];
    }
  
    /** The first object's stream was reset: drop the object, charged to the cause of the reset. */
    method DropAbandoned()
      requires Valid() && sendBuffer != [] && sendBuffer[0].queue != []
      requires sendBuffer[0].queue[0].key in resetSubgroups
      modifies this`stats, this`sendBuffer, this`sendBufferCount
      ensures Valid() && old(Now()).Buffer() != [] && old(Now()).Buffer()[0].key in old(resetSubgroups)
      ensures Now() == FlushAbandoned(old(Now()))
    {
      var p := sendBuffer[0].queue[0];
      assert Now().Buffer()[0] == p;
      hide AllUnfinished, ValidBuckets;
      if resetSubgroups[p.key] == MOQ_ERR_SEND_BUFFER_OVERFLOW {
        stats := stats.(shedOverflow := Bump(stats.shedOverflow, p.key.tid));
      } else {
        stats := stats.(shedStale := Bump(stats.shedStale, p.key.tid));
      }
      PopFront();
    }

    /** The first object outlived its delivery timeout. */
    method DropStale()
      requires Valid() && sendBuffer != [] && sendBuffer[0].queue != []
      modifies this
      ensures Valid() && old(Now()).Buffer() != [] && Now() == ShedStaleAt(old(Now()), 0)
    {
      assert Now().Buffer()[0] == sendBuffer[0].queue[0];
      hide AllUnfinished, ValidBuckets, Charged;
      ChargeStale(sendBuffer[0].queue[0]);
      PopFront();
    }

    /** Put the first object back after a write; once complete it leaves the buffer. */
    method StoreFirst(after: Item<Key>)
      requires Valid() && sendBuffer != [] && sendBuffer[0].queue != []
      requires after.priority == sendBuffer[0].priority && after.sentOffset <= |after.bytes|
      modifies this`sendBuffer, this`sendBufferCount
      ensures Valid()
      ensures Flatten(sendBuffer) == if after.sentOffset == |after.bytes| then Remove(Flatten(old(sendBuffer)), 0)
                                     else Flatten(old(sendBuffer))[0 := after]
    {
      hide AllUnfinished, ValidBuckets;
      if after.sentOffset == |after.bytes| {
        PopFront();
      } else {
        UpdateUnfinished(Flatten(sendBuffer), after);
        sendBuffer := ReplaceFirst(sendBuffer, after);
      }
    }

    /** Write a slice of the first object. */
    method WriteSlice(ghost p: Item<Key>)
      requires Valid() && sendBuffer != [] && sendBuffer[0].queue != [] && p == sendBuffer[0].queue[0]
      modifies this`wire, this`hist, this`outstanding, this`stats, this`quicBytesThisEvent, this`sendBuffer, this`sendBufferCount
      ensures Valid() && old(Now()).Buffer() != [] && p == old(Now()).Buffer()[0] && Unfinished(p)
      ensures var end := p.sentOffset + ChunkSize(p, cfg.chunk);
        && wire == old(wire) + [SliceCommand(p, cfg.chunk)]
        && hist == HistAfter(old(hist), p, end)
        && outstanding == OutstandingAfter(old(outstanding), p, end)
        && stats == StatsAfter(old(stats), p, end)
        && quicBytesThisEvent == old(quicBytesThisEvent) + (end - p.sentOffset)
        && Flatten(sendBuffer) == if end == |p.bytes| then Remove(Flatten(old(sendBuffer)), 0)
                                  else Flatten(old(sendBuffer))[0 := p.(sentOffset := end)]
    {
      var first := sendBuffer[0].queue[0];
      assert Now().Buffer()[0] == first && first.priority == sendBuffer[0].priority;
      assert Unfinished(first);
      hide AllUnfinished, ValidBuckets, HistAfter, SliceCommand, OutstandingAfter, StatsAfter;
      var after := DoSendQuicChunk(first);
      quicBytesThisEvent := quicBytesThisEvent + (after.sentOffset - first.sentOffset);
      StoreFirst(after);
    }
  
    lemma NowSound()
      requires Valid() && sendBuffer != [] && sendBuffer[0].queue != []
      ensures Sound(Now()) && Flatten(sendBuffer) != []
    {
    }

    method WriteFirst()
      requires Valid() && sendBuffer != [] && sendBuffer[0].queue != []
      modifies this
      ensures Valid() && old(Sound(Now())) && old(Now()).Buffer() != [] && Now() == FlushWrite(old(Now()))
    {
      hide Valid, Sound, FlushWrite, HistAfter, SliceCommand, OutstandingAfter, StatsAfter, Flatten, ChunkSize;
      ghost var s, q := Now(), Flatten(sendBuffer);
      NowSound();
      WriteSlice(sendBuffer[0].queue[0]);
      SliceIsWritten(s, Now(), q, Flatten(sendBuffer));
    }

    /** One round of the flush loop, on the first object. */
    method FlushFirst(now: int)
      requires Valid() && sendBuffer != [] && sendBuffer[0].queue != []
      modifies this
      ensures Valid() && old(Sound(Now())) && old(Now()).Buffer() != []
      ensures Now() == FlushStep(old(Now()), now)
    {
      var p := sendBuffer[0].queue[0];
      assert Now().Buffer()[0] == p;
      hide AllUnfinished, ValidBuckets, FlushAbandoned, ShedStaleAt, FlushWrite;
      if p.key in resetSubgroups {
        DropAbandoned();
      } else if p.Stale(now) {
        DropStale();
      } else {
        WriteFirst();
      }
    }

    /** Send in priority order until QUIC is blocked or full, or nothing is left. */
    method FlushSendBuffer(now: int, quicSendQueueLength: int)
      requires Valid()
      modifies this
      ensures Valid() && Now() == Flush(old(Now()), now, quicSendQueueLength)
    {
      hide AllUnfinished, ValidBuckets;
      if quicWriteEvent != now {
        quicWriteEvent := now;
        quicBytesThisEvent := 0;
      }
      ghost var start := Now();
      hide FlushStep;
      while !quicBlocked && sendBufferCount > 0
        invariant Valid()
        invariant FlushLoop(Now(), now, quicSendQueueLength) == FlushLoop(start, now, quicSendQueueLength)
        decreases Work(Now().Buffer())
      {
        if quicSendQueueLength + quicBytesThisEvent >= cfg.queueLimit {
          break;
        }
        sendBuffer := SkipEmpty(sendBuffer);
        if sendBuffer == [] {
          break;
        }
        FlushStepShrinks(Now(), now);
        FlushFirst(now);
      }
    }
  
    // ---- Timeouts ----

    method EraseItem(i: nat, j: nat)
      requires Valid() && i < |sendBuffer| && j < |sendBuffer[i].queue|
      modifies this`sendBuffer, this`sendBufferCount
      ensures Valid() && |sendBuffer| == |old(sendBuffer)| && sendBuffer[..i] == old(sendBuffer)[..i]
      ensures sendBuffer[i].queue == Remove(old(sendBuffer)[i].queue, j)
      ensures var n := |Flatten(old(sendBuffer)[..i])| + j;
        n < |Flatten(old(sendBuffer))| && Flatten(sendBuffer) == Remove(Flatten(old(sendBuffer)), n)
    {
      ghost var n := |Flatten(sendBuffer[..i])| + j;
      FlattenAt(sendBuffer, i);
      RemoveUnfinished(Flatten(sendBuffer), n);
      hide AllUnfinished, ValidBuckets;
      sendBuffer := EraseAt(sendBuffer, i, j);
      sendBufferCount := sendBufferCount - 1;
    }

    /** The object at `j` of the entry `i` outlived its delivery timeout: shed it. */
    method ShedAt(i: nat, j: nat, ghost n: nat)
      requires Valid() && i < |sendBuffer| && j < |sendBuffer[i].queue|
      requires n == |Flatten(sendBuffer[..i])| + j
      modifies this
      ensures Valid() && n < |old(Now()).Buffer()| && Now() == ShedStaleAt(old(Now()), n)
      ensures |sendBuffer| == |old(sendBuffer)| && sendBuffer[..i] == old(sendBuffer)[..i]
      ensures sendBuffer[i].queue == Remove(old(sendBuffer)[i].queue, j)
    {
      var item := sendBuffer[i].queue[j];
      FlattenAt(sendBuffer, i);
      assert n < |Flatten(sendBuffer)| && Flatten(sendBuffer)[n] == item;
      ShedStaleFields(Now(), Flatten(sendBuffer), n);
      hide AllUnfinished, ValidBuckets, ShedStaleAt, Charged;
      ChargeStale(item);
      EraseItem(i, j);
    }

    /** Count an object as shed. If it was partly written its stream is reset: it cannot just be dropped. */
    method ChargeStale(item: Item<Key>)
      requires Valid()
      modifies this
      ensures Valid() && sendBuffer == old(sendBuffer)
      ensures Now() == Charged(old(Now()), item)
    {
      hide AllUnfinished, ValidBuckets;
      if item.sentOffset > 0 {
        ResetSubgroupStream(item.key, item.stream, MOQ_ERR_DELIVERY_TIMEOUT);
      }
      stats := stats.(shedStale := Bump(stats.shedStale, item.key.tid));
    }

    /** Sweep one priority. */
    method SweepQueue(i: nat, now: int)
      requires Valid() && i < |sendBuffer|
      modifies this
      ensures Valid() && |sendBuffer| == |old(sendBuffer)| && sendBuffer[..i] == old(sendBuffer)[..i]
      ensures |Flatten(sendBuffer[..i + 1])| <= |Now().Buffer()|
      ensures |Flatten(sendBuffer[..i])| <= |old(Now()).Buffer()|
      ensures SweepFrom(Now(), |Flatten(sendBuffer[..i + 1])|, now) == SweepFrom(old(Now()), |Flatten(sendBuffer[..i])|, now)
    {
      hide AllUnfinished, ValidBuckets, ShedStaleAt, SweepFrom, Flatten, Sound;
      ghost var start, before := Now(), |Flatten(sendBuffer[..i])|;
      var j := 0;
      FlattenAt(sendBuffer, i);
      while j < |sendBuffer[i].queue|
        invariant Valid() && |sendBuffer| == |old(sendBuffer)| && sendBuffer[..i] == old(sendBuffer)[..i]
        invariant 0 <= j <= |sendBuffer[i].queue| && before + j <= |Now().Buffer()|
        invariant SweepFrom(Now(), before + j, now) == SweepFrom(start, before, now)
        decreases |sendBuffer[i].queue| - j
      {
        FlattenAt(sendBuffer, i);
        assert Now().Buffer()[before + j] == sendBuffer[i].queue[j];
        SweepFromStep(Now(), before + j, now);
        if sendBuffer[i].queue[j].Stale(now) {
          ShedAt(i, j, before + j);
          FlattenAt(sendBuffer, i);
        } else {
          j := j + 1;
        }
      }
      FlattenPrefix(sendBuffer, i);
    }

    /** Shed every buffered object past its delivery timeout, wherever it stands. */
    method SweepSendBufferTimeouts(now: int)
      requires Valid()
      modifies this
      ensures Valid() && Now() == Sweep(old(Now()), now)
    {
      if subscriptionsEnded {
        return;
      }
      ghost var start := Now();
      var i := 0;
      assert sendBuffer[..0] == [];
      hide AllUnfinished, ValidBuckets, SweepFrom;
      while i < |sendBuffer|
        invariant Valid() && 0 <= i <= |sendBuffer|
        invariant |Flatten(sendBuffer[..i])| <= |Now().Buffer()|
        invariant SweepFrom(Now(), |Flatten(sendBuffer[..i])|, now) == SweepFrom(start, 0, now)
        decreases |sendBuffer| - i
      {
        SweepQueue(i, now);
        FlattenPrefix(sendBuffer, i);
        if sendBuffer[i].queue == [] {
          sendBuffer := EraseBucket(sendBuffer, i);
        } else {
          i := i + 1;
        }
      }
      assert sendBuffer[..i] == sendBuffer;
      SweepDone(Now(), now);
    }
  
    /** Reset the stream of every object written to QUIC that has outrun its delivery timeout. */
    method CheckOutstandingTimeouts(now: int, quicSendQueueLength: int)
      requires Valid()
      modifies this
      ensures Valid() && Now() == CheckOutstanding(old(Now()), now, quicSendQueueLength)
    {
      hide AllUnfinished, ValidBuckets;
      if quicSendQueueLength == 0 {
        outstanding := [];
        return;
      }
      ghost var start := Now();
      var i := 0;
      while i < |outstanding|
        invariant Valid() && 0 <= i <= |outstanding|
        invariant ExpireFrom(Now(), i, now) == ExpireFrom(start, 0, now)
        decreases |outstanding| - i
      {
        var o := outstanding[i];
        if o.key in resetSubgroups {
          outstanding := Remove(outstanding, i);
        } else if now - o.createdAt > o.timeout {
          ExpireOne(i);
        } else {
          i := i + 1;
        }
      }
    }

    method ExpireOne(i: nat)
      requires Valid() && i < |outstanding|
      modifies this
      ensures Valid() && i < |old(Now()).outstanding| && Now() == ExpireAt(old(Now()), i)
    {
      hide AllUnfinished, ValidBuckets;
      var o := outstanding[i];
      ResetSubgroupStream(o.key, o.stream, MOQ_ERR_DELIVERY_TIMEOUT);
      stats := stats.(resetAfterSend := Bump(stats.resetAfterSend, o.key.tid));
      outstanding := Remove(outstanding, i);
    }

    // ---- Sending ----

    /** The stream of a subgroup, opened with its first object. Returns the stream id. */
    method StreamFor(key: Key, f: ObjectFrame) returns (streamId: int)
      requires Valid()
      modifies this`subgroupStreams, this`nextStreamId, this`hist
      ensures Valid()
      ensures Now().ch == if key in old(subgroupStreams) then old(Now()).ch else OpenStream(old(Now()).ch, 0, key, f)
      ensures key in subgroupStreams && streamId == subgroupStreams[key]
    {
      hide AllUnfinished, ValidBuckets;
      if key !in subgroupStreams {
        hist := hist[nextStreamId := Stream(key, 0, f.priority, [], [], f, 0)];
        subgroupStreams := subgroupStreams[key := nextStreamId];
        nextStreamId := nextStreamId + 4;
      }
      streamId := subgroupStreams[key];
    }

    /** Offer one object: on a stream already reset it is gone at once, otherwise it is buffered. */
    method SendObjectFrame(f: ObjectFrame, tid: int, now: int, quicSendQueueLength: int)
      requires Valid()
      modifies this
      ensures Valid() && Now() == SendObject(old(Now()), f, tid, now, quicSendQueueLength)
    {
      if subscriptionsEnded {
        return;
      }
      var key := Key(tid, f.groupId, f.subgroupId);
      if key in resetSubgroups {
        RefuseObject(key);
        return;
      }
      var timeout := if 0 <= tid < |cfg.tracks| then cfg.tracks[tid].deliveryTimeout else 0;
      ghost var s := Now();
      BufferedSound(s, key, f, timeout, now);
      hide AllUnfinished, ValidBuckets, Buffered, Flush;
      BufferObject(key, f, timeout, now);
      FlushSendBuffer(now, quicSendQueueLength);
    }

    method RefuseObject(key: Key)
      requires Valid() && key in resetSubgroups
      modifies this`stats
      ensures Valid() && Now() == Accepted(old(Now()).(stats := ChargeReset(old(stats), key.tid, resetSubgroups[key])), key.tid)
    {
      hide AllUnfinished, ValidBuckets;
      stats := ChargeReset(stats, key.tid, resetSubgroups[key]);
      stats := stats.(accepted := Bump(stats.accepted, key.tid));
    }

    method BufferObject(key: Key, f: ObjectFrame, timeout: int, now: int)
      requires Valid()
      modifies this
      ensures Valid() && Now() == Buffered(old(Now()), key, f, timeout, now)
    {
      hide AllUnfinished, ValidBuckets, Terminate, Insert, OfferedOn;
      ghost var s := Now();
      var frame := EncodeFrame(f);
      var streamId := StreamFor(key, f);
      stats := stats.(accepted := Bump(stats.accepted, key.tid));
      hist := OfferedOn(hist, streamId, f);
      var item := Item(key, streamId, f.priority, f, frame, f.creationTime, timeout, 0);
      assert item == NewItem(key, streamId, f, timeout);
      AcceptFields(s, key, f, timeout, Now(), item);
      EnqueuePending(item, now);
    }
  
    // ---- Events ----

    /** The track timer fired: emit one group, all its objects on one subgroup stream. */
    method OnTrackTimer(tid: int, now: int, quicSendQueueLength: int)
      requires Valid()
      modifies this
      ensures Valid() && Now() == OfferGroup(old(Now()), tid, now, quicSendQueueLength)
    {
      hide AllUnfinished, ValidBuckets, OfferOne;
      if subscriptionsEnded || !(0 <= tid < |cfg.tracks|) {
        return;
      }
      var perGroup := cfg.tracks[tid].PerGroup();
      var groupId := Count(nextObjectId, tid) / perGroup;
      ghost var start := Now();
      for i := 0 to perGroup
        invariant Valid()
        invariant OfferMany(Now(), tid, groupId, perGroup - i, now, quicSendQueueLength)
               == OfferMany(start, tid, groupId, perGroup, now, quicSendQueueLength)
      {
        OfferNext(tid, groupId, now, quicSendQueueLength);
      }
    }

    method OfferNext(tid: int, groupId: int, now: int, quicSendQueueLength: int)
      requires Valid() && 0 <= tid < |cfg.tracks|
      modifies this
      ensures Valid() && old(Sound(Now()) && 0 <= tid < |Now().cfg.tracks|)
      ensures Now() == OfferOne(old(Now()), tid, groupId, now, quicSendQueueLength)
    {
      hide AllUnfinished, ValidBuckets, SendObject;
      var track := cfg.tracks[tid];
      var f := ObjectFrame(tid, groupId, 0, Count(nextObjectId, tid), track.priority, track.packetSize, now, track.alias);
      nextObjectId := Bump(nextObjectId, tid);
      SendObjectFrame(f, tid, now, quicSendQueueLength);
      stats := stats.(offered := Bump(stats.offered, tid));
    }

    /** The periodic check: expire what is in QUIC, sweep the buffer, then try to send. */
    method OnTimeoutTimer(now: int, quicSendQueueLength: int)
      requires Valid()
      modifies this
      ensures Valid() && Now() == OnTimeoutCheck(old(Now()), now, quicSendQueueLength)
    {
      hide AllUnfinished, ValidBuckets, CheckOutstanding, SweepFrom, Flush;
      CheckOutstandingTimeouts(now, quicSendQueueLength);
      SweepSendBufferTimeouts(now);
      FlushSendBuffer(now, quicSendQueueLength);
    }

    method SocketSendQueueFull()
      requires Valid()
      modifies this`quicBlocked
      ensures Valid() && Now() == Step(old(Now()), QueueFull)
    {
      hide AllUnfinished, ValidBuckets;
      quicBlocked := true;
    }

    method SocketSendQueueDrain(now: int, quicSendQueueLength: int)
      requires Valid()
      modifies this
      ensures Valid() && Now() == Step(old(Now()), QueueDrained(now, quicSendQueueLength))
    {
      hide AllUnfinished, ValidBuckets, FlushLoop;
      quicBlocked := false;
      FlushSendBuffer(now, quicSendQueueLength);
    }

    /** Whatever events arrive, in whatever order, the object follows the run of the specification. */
    method HandleAll(events: seq<Event>)
      requires Valid()
      modifies this
      ensures Valid() && Now() == Run(old(Now()), events)
    {
      ghost var start := Now();
      hide AllUnfinished, ValidBuckets, OfferGroup, OnTimeoutCheck, FlushLoop;
      assert events[0..] == events;
      for i := 0 to |events|
        invariant Valid()
        invariant Run(Now(), events[i..]) == Run(start, events)
      {
        assert events[i..][1..] == events[i + 1..];
        match events[i]
        case Group(tid, now, qlen) => OnTrackTimer(tid, now, qlen);
        case TimeoutCheck(now, qlen) => OnTimeoutTimer(now, qlen);
        case QueueFull => SocketSendQueueFull();
        case QueueDrained(now, qlen) => SocketSendQueueDrain(now, qlen);
      }
    }
  }

  lemma AcceptFields(s: State, k: Key, f: ObjectFrame, timeout: int, begun: State, item: Item<Key>)
    requires s.ch.queue.Keys == {0}
    requires var c := if k in s.ch.open then s.ch else OpenStream(s.ch, 0, k, f);
      && k in c.open
      && begun.ch == c.(hist := OfferedOn(c.hist, c.open[k], f))
      && begun == s.(ch := begun.ch, stats := s.stats.(accepted := Bump(s.stats.accepted, k.tid)))
      && item == NewItem(k, c.open[k], f, timeout)
    ensures Accepted(s.(ch := Accept(s.ch, 0, k, f, timeout)), k.tid)
         == begun.(ch := begun.ch.(queue := map[0 := Insert(s.Buffer(), item)]))
  {
    hide Insert, Encode, OfferedOn;
    assert s.ch.queue[0 := Insert(s.Buffer(), item)] == map[0 := Insert(s.Buffer(), item)];
  }

  lemma SweepFromStep(s: State, i: nat, now: int)
    requires i < |s.Buffer()|
    ensures SweepFrom(s, i, now) == if s.Buffer()[i].Stale(now) then SweepFrom(ShedStaleAt(s, i), i, now) else SweepFrom(s, i + 1, now)
  {
  }

  lemma SweepDone(s: State, now: int)
    ensures SweepFrom(s, |s.Buffer()|, now) == s
  {
  }

  lemma FlattenPrefix(bs: seq<Bucket<Key>>, i: nat)
    requires i < |bs|
    ensures |Flatten(bs[..i + 1])| == |Flatten(bs[..i])| + |bs[i].queue|
  {
    assert bs[..i + 1] == bs[..i] + [bs[i]];
    FlattenConcat(bs[..i], [bs[i]]);
    assert Flatten([bs[i]]) == bs[i].queue;
  }

  lemma ShedStaleFields(s: State, q: seq<Item<Key>>, n: nat)
    requires s.ch.queue == map[0 := q] && n < |q|
    ensures s.Buffer() == q
    ensures var r := Charged(s, q[n]);
      ShedStaleAt(s, n) ==
      State(r.cfg, Channel(r.ch.open, r.ch.reset, r.ch.nextId, map[0 := Remove(q, n)], r.ch.wire, r.ch.hist),
            r.outstanding, r.blocked, r.writeEvent, r.eventBytes,
            r.ended, r.endTime, r.endStatus, r.trigger, r.next, r.stats)
  {
    assert s.ch.queue[0 := Remove(q, n)] == map[0 := Remove(q, n)];
  }

  lemma UpdateUnfinished(q: seq<Item<Key>>, item: Item<Key>)
    requires AllUnfinished(q) && q != [] && Unfinished(item)
    ensures AllUnfinished(q[0 := item])
  {
  }

  lemma WriteSliceFields(s: State, q: seq<Item<Key>>, q1: seq<Item<Key>>)
    requires Sound(s) && q != [] && s.ch.queue == map[0 := q]
    requires var item := q[0];
      var end := item.sentOffset + ChunkSize(item, s.cfg.chunk);
      q1 == if end == |item.bytes| then Remove(q, 0) else q[0 := item.(sentOffset := end)]
    ensures s.Buffer() == q
    ensures var item := q[0];
      var end := item.sentOffset + ChunkSize(item, s.cfg.chunk);
      FlushWrite(s) ==
      State(s.cfg,
            Channel(s.ch.open, s.ch.reset, s.ch.nextId, map[0 := q1], s.ch.wire + [SliceCommand(item, s.cfg.chunk)],
                    HistAfter(s.ch.hist, item, end)),
            OutstandingAfter(s.outstanding, item, end), s.blocked, s.writeEvent,
            s.eventBytes + (end - item.sentOffset), s.ended, s.endTime, s.endStatus, s.trigger, s.next,
            StatsAfter(s.stats, item, end))
  {
    hide Encode, OutstandingAfter, StatsAfter, HistAfter, SliceCommand;
    assert s.ch.queue[0 := q1] == map[0 := q1];
  }

  lemma SliceIsWritten(s: State, r: State, q: seq<Item<Key>>, q1: seq<Item<Key>>)
    requires Sound(s) && q != [] && s.ch.queue == map[0 := q] && r.ch.queue == map[0 := q1]
    requires var item := q[0];
      var end := item.sentOffset + ChunkSize(item, s.cfg.chunk);
      && q1 == (if end == |item.bytes| then Remove(q, 0) else q[0 := item.(sentOffset := end)])
      && r.ch == s.ch.(queue := r.ch.queue, wire := s.ch.wire + [SliceCommand(item, s.cfg.chunk)], hist := HistAfter(s.ch.hist, item, end))
      && r == s.(ch := r.ch, outstanding := OutstandingAfter(s.outstanding, item, end), stats := StatsAfter(s.stats, item, end),
                 eventBytes := s.eventBytes + (end - item.sentOffset))
    ensures s.Buffer() == q && r == FlushWrite(s)
  {
    hide Sound, HistAfter, SliceCommand, OutstandingAfter, StatsAfter, Encode, FlushWrite;
    WriteSliceFields(s, q, q1);
  }

  lemma InsertUnfinished(q: seq<Item<Key>>, item: Item<Key>)
    requires AllUnfinished(q) && Unfinished(item)
    ensures AllUnfinished(Insert(q, item))
  {
  }

  lemma RemoveUnfinished(q: seq<Item<Key>>, i: nat)
    requires AllUnfinished(q) && i < |q|
    ensures AllUnfinished(Remove(q, i))
  {
  }

  lemma FinishFields(r: State, status: int)
    requires r.ch.queue.Keys == {0}
    ensures var n := |r.cfg.tracks|;
      Finish(r, status) ==
      State(r.cfg,
            Channel(r.ch.open, r.ch.reset, r.ch.nextId, map[0 := []], r.ch.wire + DoneMessages(r.cfg.tracks, status, n), r.ch.hist),
            [], r.blocked, r.writeEvent, r.eventBytes, r.ended, r.endTime, r.endStatus, r.trigger, r.next,
            Stats(r.stats.offered, r.stats.accepted, r.stats.sent, r.stats.shedStale,
                  CountAll(r.stats.shedOverflow, r.ch.queue[0]), r.stats.resetAfterSend, r.stats.subgroupResets,
                  r.stats.shedAtTeardown + |r.ch.queue[0]|))
  {
    assert r.ch.queue[0 := []] == map[0 := []];
  }

  lemma ResetAllStep(s: State, k: Key, code: int)
    requires IsFirst(k, s.ch.open.Keys)
    ensures ResetAll(s, code) == ResetAll(ResetSubgroup(s, k, s.ch.open[k], code), code)
  {
    FirstUnique(s.ch.open.Keys, k);
  }

  lemma FirstUnique(keys: set<Key>, k: Key)
    requires IsFirst(k, keys)
    ensures forall j :: IsFirst(j, keys) ==> j == k
  {
  }

  lemma NothingQueued()
    ensures AllUnfinished<Key>([]) && ValidBuckets<Key>([])
  {
  }
}
