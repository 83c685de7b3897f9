/** MoqRelayApp over QUIC: the forwarding state it updates in place and the methods that update it. */
module RelayApp {
  import opened Bytes
  import opened MoqFraming
  import opened SendQueue
  import opened Relay

  class MoqRelayApp {
    const cfg: Config

    var downstreamStreams: map<DownSubgroup, int>
    var resetDownstream: map<DownSubgroup, int>
    var nextDataStreamId: int

    // Per connection: the objects waiting, in send order, how many they are, and whether QUIC is full.
    var buffers: map<int, seq<Item<DownSubgroup>>>
    var counts: map<int, int>
    var blocked: set<int>

    var pendingForwardCount: int
    var quicWriteEvent: int
    var quicBytesThisEvent: map<int, int>

    var deliveryTimeouts: map<TrackKey, int>
    var subscriberSockets: map<Bytes, int>
    var subscriberByTrack: seq<Subscribers>

    /** Every command given to the sockets, in order. */
    var wire: seq<Command>

    // What happened on each stream: recorded for the theorems.
    ghost var hist: map<int, Stream<DownSubgroup>>

    /** The state of Relay.dfy that this object is in. */
    ghost function Now(): State
      reads this
    {
      State(cfg,
            Channel(downstreamStreams, resetDownstream, nextDataStreamId, buffers, wire, hist),
            counts, pendingForwardCount, blocked, quicWriteEvent, quicBytesThisEvent,
            deliveryTimeouts, subscriberSockets, subscriberByTrack)
    }

    ghost predicate Valid()
      reads this
    {
      Sound(Now()) && counts.Keys == buffers.Keys && forall sock :: sock in counts ==> counts[sock] == |buffers[sock]|
    }

    constructor (cfg: Config)
      requires 0 < cfg.chunk
      ensures Valid() && Now() == Initial(cfg)
    {
      this.cfg := cfg;
      downstreamStreams, resetDownstream, nextDataStreamId := map[], map[], 1;
      buffers, counts, blocked := map[], map[], {};
      pendingForwardCount := 0;
      quicWriteEvent, quicBytesThisEvent := -1, map[];
      deliveryTimeouts, subscriberSockets, subscriberByTrack := map[], map[], [];
      wire, hist := [], map[];
    }

    method ResetDownstreamStream(item: Item<DownSubgroup>, errorCode: int)
      requires Valid()
      modifies this`wire, this`resetDownstream, this`downstreamStreams
      ensures Valid() && Now() == ResetDownstream(old(Now()), item, errorCode)
    {
      wire := wire + [Reset(item.stream, errorCode)];
      resetDownstream := resetDownstream[item.key := errorCode];
      downstreamStreams := downstreamStreams - {item.key};
    }

    /** The object at `i` leaves the queue; both counters follow. */
    method Erase(sock: int, i: nat)
      requires Valid() && sock in buffers && i < |buffers[sock]|
      modifies this`buffers, this`counts, this`pendingForwardCount
      ensures Valid() && sock in buffers && Now() == TakeOut(old(Now()), sock, i)
      ensures buffers.Keys == old(buffers.Keys)
    {
      QueueAfterTakeOut(Now(), sock, i);
      buffers := buffers[sock := Remove(buffers[sock], i)];
      counts := counts[sock := counts[sock] - 1];
      pendingForwardCount := pendingForwardCount - 1;
    }

    /** doForwardSendChunk: the next slice of the first object goes to QUIC. */
    method DoForwardSendChunk(sock: int)
      requires Valid() && sock in buffers && buffers[sock] != []
      modifies this`wire, this`buffers, this`counts, this`pendingForwardCount, this`quicBytesThisEvent, this`hist
      ensures old(Unfinished(Now().Queue(sock)[0]))
      ensures Valid() && sock in buffers && Now() == Write(old(Now()), sock)
      ensures buffers.Keys == old(buffers.Keys)
    {
      hide *;
      ghost var before := Now();
      FrontOf(sock);
      FrontUnfinished(before, sock);
      WriteSplits(before, sock);
      var item := buffers[sock][0];
      var end := item.sentOffset + ChunkSize(item, cfg.chunk);
      SendSlice(sock, item);
      if end < |item.bytes| {
        MoveOffset(sock, end);
      } else {
        Erase(sock, 0);
      }
    }

    lemma FrontOf(sock: int)
      requires Valid() && sock in buffers
      ensures Sound(Now()) && Now().Queue(sock) == buffers[sock] && Now().cfg == cfg
    {
    }

    /** The slice is on its way; the object has not moved yet. */
    method SendSlice(sock: int, item: Item<DownSubgroup>)
      requires Valid() && sock in buffers && buffers[sock] != [] && item == buffers[sock][0] && Unfinished(item)
      modifies this`wire, this`quicBytesThisEvent, this`hist
      ensures Valid() && Now() == SliceSent(old(Now()), sock)
    {
      hide HistAfter, SliceCommand;
      var n := ChunkSize(item, cfg.chunk);
      wire := wire + [SliceCommand(item, cfg.chunk)];
      hist := HistAfter(hist, item, item.sentOffset + n);
      var written := if sock in quicBytesThisEvent then quicBytesThisEvent[sock] else 0;
      quicBytesThisEvent := quicBytesThisEvent[sock := written + n];
    }

    method MoveOffset(sock: int, end: nat)
      requires Valid() && sock in buffers && buffers[sock] != [] && end < |buffers[sock][0].bytes|
      modifies this`buffers
      ensures Valid() && sock in buffers && Now() == Moved(old(Now()), sock, end)
      ensures buffers.Keys == old(buffers.Keys)
    {
      buffers := buffers[sock := buffers[sock][0 := buffers[sock][0].(sentOffset := end)]];
    }

    /** flushSocket: most urgent first, until QUIC's queue is full or nothing is left. */
    method FlushSocket(sock: int, now: int, quicSendQueueLength: int)
      requires Valid() && sock in buffers
      modifies this
      ensures Valid() && sock in buffers && Now() == Flush(old(Now()), sock, now, quicSendQueueLength)
    {
      hide Write, GiveUp, TakeOut, Work, ResetDownstream;
      if quicWriteEvent != now {
        quicWriteEvent := now;
        quicBytesThisEvent := map[];
      }
      ghost var start := Now();
      while sock !in blocked && counts[sock] > 0
        invariant Valid() && sock in buffers
        invariant FlushLoop(Now(), sock, now, quicSendQueueLength) == FlushLoop(start, sock, now, quicSendQueueLength)
        decreases Work(Now().Queue(sock))
      {
        if quicSendQueueLength + (if sock in quicBytesThisEvent then quicBytesThisEvent[sock] else 0) >= cfg.queueLimit {
          break;
        }
        FlushStepShrinks(Now(), sock, now);
        FlushFirst(sock, now);
      }
    }

    /** One turn of the loop, on the first object of the queue. */
    method FlushFirst(sock: int, now: int)
      requires Valid() && sock in buffers && buffers[sock] != []
      modifies this
      ensures old(Unfinished(Now().Queue(sock)[0]))
      ensures Valid() && sock in buffers && Now() == FlushStep(old(Now()), sock, now)
    {
      hide Write, TakeOut, ResetDownstream;
      assert Unfinished(buffers[sock][0]);
      var item := buffers[sock][0];
      if item.key in resetDownstream {
        Erase(sock, 0);
      } else if item.Stale(now) {
        if item.sentOffset > 0 {
          ResetDownstreamStream(item, MOQ_ERR_DELIVERY_TIMEOUT);
        }
        Erase(sock, 0);
      } else {
        DoForwardSendChunk(sock);
      }
    }

    // ---- Ending subscriptions ----

    /** An object given up; if part of it is out, its stream is reset first. */
    method GiveUpAt(sock: int, i: nat, errorCode: int)
      requires Valid() && sock in buffers && i < |buffers[sock]|
      modifies this
      ensures old(i < |Now().Queue(sock)|)
      ensures Valid() && sock in buffers && Now() == GiveUp(old(Now()), sock, i, errorCode)
      ensures buffers.Keys == old(buffers.Keys)
    {
      hide TakeOut, ResetDownstream;
      var item := buffers[sock][i];
      if item.sentOffset > 0 {
        ResetDownstreamStream(item, errorCode);
      }
      Erase(sock, i);
    }

    /** The loop of endSubscriberTrack over the subscriber's queue. */
    method GiveUpTrack(sock: int, alias: Bytes)
      requires Valid() && sock in buffers
      modifies this
      ensures Valid() && sock in buffers && Now() == SweepTrack(old(Now()), sock, alias, 0)
      ensures buffers.Keys == old(buffers.Keys)
    {
      hide GiveUp;
      ghost var start := Now();
      var i := 0;
      while i < |buffers[sock]|
        invariant Valid() && sock in buffers && i <= |buffers[sock]|
        invariant buffers.Keys == old(buffers.Keys)
        invariant SweepTrack(Now(), sock, alias, i) == SweepTrack(start, sock, alias, 0)
        decreases |buffers[sock]| - i
      {
        if buffers[sock][i].key.alias == alias {
          QueueAfterGiveUp(Now(), sock, i, MOQ_ERR_SEND_BUFFER_OVERFLOW);
          GiveUpAt(sock, i, MOQ_ERR_SEND_BUFFER_OVERFLOW);
        } else {
          i := i + 1;
        }
      }
    }

    method SendPublishDone(sock: int, track: TrackKey, status: int)
      requires Valid()
      modifies this`wire
      ensures Valid() && wire == old(wire) + [DoneMessage(sock, track, status)]
    {
      wire := wire + [PublishDone(sock, -1, track.Alias(), status)];
    }

    method EndSubscriberTrack(subscriberId: Bytes, track: TrackKey, statusCode: int)
      requires Valid()
      modifies this
      ensures Valid() && Now() == Relay.EndSubscriberTrack(old(Now()), subscriberId, track, statusCode)
      ensures buffers.Keys == old(buffers.Keys)
    {
      hide SweepTrack, Unsubscribe;
      if subscriberId !in subscriberSockets {
        return;
      }
      var sock := subscriberSockets[subscriberId];
      if sock in buffers {
        GiveUpTrack(sock, track.Alias());
      } else {
        NothingQueued(Now(), sock, track.Alias());
      }
      SendPublishDone(sock, track, statusCode);
      subscriberByTrack := Unsubscribe(subscriberByTrack, track, subscriberId);
    }

    /** endTrackDownstream: the list of subscribers is copied, since ending one changes it. */
    method EndTrackDownstream(track: TrackKey, statusCode: int)
      requires Valid()
      modifies this
      ensures Valid() && Now() == EndForAll(old(Now()), SubscribersOf(old(Now()).byTrack, track), track, statusCode)
    {
      hide Relay.EndSubscriberTrack;
      ghost var start := Now();
      var subs := SubscribersOf(subscriberByTrack, track);
      for i := 0 to |subs|
        invariant Valid()
        invariant EndForAll(Now(), subs[i..], track, statusCode) == EndForAll(start, subs, track, statusCode)
      {
        assert subs[i..][1..] == subs[i + 1..];
        EndSubscriberTrack(subs[i], track, statusCode);
      }
    }

    /** TOO_FAR_BEHIND: every track the subscriber is listed for ends. */
    method EndSubscriptions(subscriberId: Bytes)
      requires Valid()
      modifies this
      ensures Valid() && Now() == EndTracks(old(Now()), subscriberId, TracksOf(old(Now()).byTrack, subscriberId), PUBDONE_TOO_FAR_BEHIND)
      ensures buffers.Keys == old(buffers.Keys)
    {
      hide Relay.EndSubscriberTrack;
      ghost var start := Now();
      var ended := TracksOf(subscriberByTrack, subscriberId);
      for i := 0 to |ended|
        invariant Valid()
        invariant buffers.Keys == old(buffers.Keys)
        invariant EndTracks(Now(), subscriberId, ended[i..], PUBDONE_TOO_FAR_BEHIND) == EndTracks(start, subscriberId, ended, PUBDONE_TOO_FAR_BEHIND)
      {
        assert ended[i..][1..] == ended[i + 1..];
        EndSubscriberTrack(subscriberId, ended[i], PUBDONE_TOO_FAR_BEHIND);
      }
    }

    // ---- Forwarding ----

    method OpenDownstream(sock: int, key: DownSubgroup, f: ObjectFrame)
      requires Valid()
      modifies this`hist, this`downstreamStreams, this`nextDataStreamId
      ensures Valid() && Now() == old(Now()).(ch := OpenStream(old(Now()).ch, sock, key, f))
      ensures key in downstreamStreams
    {
      hist := hist[nextDataStreamId := Stream(key, sock, f.priority, [], [], f, 0)];
      downstreamStreams := downstreamStreams[key := nextDataStreamId];
      nextDataStreamId := nextDataStreamId + 4;
    }

    /** The object joins its connection's queue, on its subgroup's stream. */
    method Enqueue(sock: int, key: DownSubgroup, f: ObjectFrame)
      requires Valid()
      modifies this
      ensures Valid() && sock in buffers && Now() == Enqueued(old(Now()), sock, key, f)
    {
      hide Encode, OpenStream, SendQueue.Enqueue;
      ghost var before := Now();
      if key !in downstreamStreams {
        OpenDownstream(sock, key, f);
      }
      EnqueuedSound(before, sock, key, f);
      Push(sock, key, f);
    }

    method Push(sock: int, key: DownSubgroup, f: ObjectFrame)
      requires Valid() && key in downstreamStreams
      modifies this
      ensures sock in buffers && counts.Keys == buffers.Keys && forall n :: n in counts ==> counts[n] == |buffers[n]|
      ensures old(key in Now().ch.open)
      ensures Now() == var s := old(Now());
        s.(ch := SendQueue.Enqueue(s.ch, sock, key, f, TimeoutOf(s, f)), count := s.count[sock := s.Count(sock) + 1], pending := s.pending + 1)
    {
      hide Encode, OfferedOn, TimeoutIn, Sound, Insert, InsertPosition, TrackOf;
      PushedFields(Now(), sock, key, f);
      var streamId := downstreamStreams[key];
      var item := Item(key, streamId, f.priority, f, Encode(f), f.creationTime, TimeoutIn(deliveryTimeouts, f.trackAlias), 0);
      hist := OfferedOn(hist, streamId, f);
      PushItem(sock, item);
    }

    method PushItem(sock: int, item: Item<DownSubgroup>)
      requires counts.Keys == buffers.Keys && forall n :: n in counts ==> counts[n] == |buffers[n]|
      modifies this`buffers, this`counts, this`pendingForwardCount
      ensures counts.Keys == buffers.Keys && forall n :: n in counts ==> counts[n] == |buffers[n]|
      ensures buffers == old(buffers)[sock := Insert(if sock in old(buffers) then old(buffers)[sock] else [], item)]
      ensures counts == old(counts)[sock := (if sock in old(counts) then old(counts)[sock] else 0) + 1]
      ensures pendingForwardCount == old(pendingForwardCount) + 1
    {
      buffers := buffers[sock := Insert(if sock in buffers then buffers[sock] else [], item)];
      counts := counts[sock := (if sock in counts then counts[sock] else 0) + 1];
      pendingForwardCount := pendingForwardCount + 1;
    }

    /** What an object entering the queue changes, field by field. */
    static lemma PushedFields(s: State, sock: int, key: DownSubgroup, f: ObjectFrame)
      requires key in s.ch.open
      ensures var item := Item(key, s.ch.open[key], f.priority, f, Encode(f), f.creationTime, TimeoutIn(s.timeouts, f.trackAlias), 0);
        var queue := s.ch.queue[sock := Insert(if sock in s.ch.queue then s.ch.queue[sock] else [], item)];
        s.(ch := SendQueue.Enqueue(s.ch, sock, key, f, TimeoutOf(s, f)), count := s.count[sock := s.Count(sock) + 1], pending := s.pending + 1)
        == State(s.cfg, Channel(s.ch.open, s.ch.reset, s.ch.nextId, queue, s.ch.wire, OfferedOn(s.ch.hist, s.ch.open[key], f)),
          s.count[sock := (if sock in s.count then s.count[sock] else 0) + 1], s.pending + 1, s.blocked,
          s.writeEvent, s.eventBytes, s.timeouts, s.sockets, s.byTrack)
    {
      hide Encode, Insert, OfferedOn, TimeoutIn;
    }

    method ForwardToSubscriber(subscriberId: Bytes, f: ObjectFrame, now: int, quicSendQueueLength: int -> int)
      requires Valid()
      modifies this
      ensures old(Sound(Now()))
      ensures Valid() && Now() == Forward(old(Now()), subscriberId, f, now, quicSendQueueLength)
    {
      hide Enqueued, EndTracks, Flush;
      if subscriberId !in subscriberSockets {
        return;
      }
      var sock := subscriberSockets[subscriberId];
      var key := KeyFor(subscriberId, f);
      if key in resetDownstream {
        return;
      }
      Enqueue(sock, key, f);
      if counts[sock] > cfg.bufferLimit {
        EndSubscriptions(subscriberId);
      }
      FlushSocket(sock, now, quicSendQueueLength(sock));
    }

    /** onObjectFrame, over a copy of the list of subscribers: an overflow may change it. */
    method OnObjectFrame(f: ObjectFrame, now: int, quicSendQueueLength: int -> int)
      requires Valid()
      modifies this
      ensures old(Sound(Now()))
      ensures Valid() && Now() == OnObject(old(Now()), f, now, quicSendQueueLength)
    {
      hide Forward;
      var track := TrackOf(f.trackAlias);
      if track.None? {
        return;
      }
      var subs := SubscribersOf(subscriberByTrack, track.value);
      ghost var start := Now();
      for i := 0 to |subs|
        invariant Valid()
        invariant ForwardAll(Now(), subs[i..], f, now, quicSendQueueLength) == ForwardAll(start, subs, f, now, quicSendQueueLength)
      {
        assert subs[i..][1..] == subs[i + 1..];
        ForwardToSubscriber(subs[i], f, now, quicSendQueueLength);
      }
    }

    // ---- Connections ----

    method OnAnnounce(track: TrackKey, deliveryTimeout: int)
      requires Valid()
      modifies this
      ensures Valid() && Now() == Step(old(Now()), Announce(track, deliveryTimeout))
    {
      deliveryTimeouts := deliveryTimeouts[track := deliveryTimeout];
    }

    method OnSubscribe(subscriberId: Bytes, track: TrackKey, sock: int)
      requires Valid()
      modifies this
      ensures Valid() && Now() == Relay.OnSubscribe(old(Now()), subscriberId, track, sock)
    {
      subscriberSockets := subscriberSockets[subscriberId := sock];
      subscriberByTrack := Subscribed(subscriberByTrack, track, subscriberId);
    }

    method Touch(sock: int)
      requires Valid()
      modifies this
      ensures Valid() && sock in buffers && Now() == Touched(old(Now()), sock)
    {
      if sock !in buffers {
        buffers := buffers[sock := []];
        counts := counts[sock := 0];
      }
    }

    method SocketSendQueueFull(sock: int)
      requires Valid()
      modifies this
      ensures Valid() && Now() == OnQueueFull(old(Now()), sock)
    {
      hide Touched;
      Touch(sock);
      blocked := blocked + {sock};
    }

    method SocketSendQueueDrain(sock: int, now: int, quicSendQueueLength: int)
      requires Valid()
      modifies this
      ensures old(Sound(Now()))
      ensures Valid() && Now() == OnQueueDrained(old(Now()), sock, now, quicSendQueueLength)
    {
      hide Touched, FlushLoop;
      Touch(sock);
      blocked := blocked - {sock};
      FlushSocket(sock, now, quicSendQueueLength);
    }

    method ReleaseQueue(sock: int)
      requires Valid()
      modifies this`buffers, this`counts, this`pendingForwardCount, this`blocked
      ensures Valid() && Now() == Released(old(Now()), sock)
    {
      if sock in buffers {
        pendingForwardCount := pendingForwardCount - counts[sock];
      }
      buffers := buffers - {sock};
      counts := counts - {sock};
      blocked := blocked - {sock};
    }

    method SocketClosed(sock: int)
      requires Valid()
      modifies this
      ensures Valid() && Now() == OnClosed(old(Now()), sock)
    {
      hide OfOthers, Reached, Released;
      var gone := Reached(subscriberSockets, sock);
      ReleaseQueue(sock);
      downstreamStreams := OfOthers(downstreamStreams, gone);
      resetDownstream := OfOthers(resetDownstream, gone);
      subscriberSockets := subscriberSockets - gone;
    }

    /** One event. */
    method Handle(e: Event)
      requires Valid()
      modifies this
      ensures old(Sound(Now()))
      ensures Valid() && Now() == Step(old(Now()), e)
    {
      hide OnObject, Relay.OnSubscribe, OnQueueFull, OnQueueDrained, OnClosed, EndForAll;
      match e
      case Announce(track, timeout) => OnAnnounce(track, timeout);
      case Subscribe(id, track, sock) => OnSubscribe(id, track, sock);
      case Object(f, now, qlen) => OnObjectFrame(f, now, qlen);
      case UpstreamDone(track) => EndTrackDownstream(track, PUBDONE_TRACK_ENDED);
      case QueueFull(sock) => SocketSendQueueFull(sock);
      case QueueDrained(sock, now, queueLength) => SocketSendQueueDrain(sock, now, queueLength);
      case Closed(sock) => SocketClosed(sock);
    }

    /** A whole run. */
    method HandleAll(es: seq<Event>)
      requires Valid()
      modifies this
      ensures old(Sound(Now()))
      ensures Valid() && Now() == Run(old(Now()), es)
    {
      hide Step;
      ghost var start := Now();
      for i := 0 to |es|
        invariant Valid()
        invariant Run(Now(), es[i..]) == Run(start, es)
      {
        assert es[i..][1..] == es[i + 1..];
        Handle(es[i]);
      }
    }
  }

  lemma NothingQueued(s: State, sock: int, alias: Bytes)
    requires sock !in s.ch.queue
    ensures SweepTrack(s, sock, alias, 0) == s
  {
  }

  lemma FrontUnfinished(s: State, sock: int)
    requires Sound(s) && s.Queue(sock) != []
    ensures 0 < s.cfg.chunk && sock in s.ch.queue && Unfinished(s.Queue(sock)[0])
    ensures var item := s.Queue(sock)[0];
      0 < ChunkSize(item, s.cfg.chunk) && item.sentOffset + ChunkSize(item, s.cfg.chunk) <= |item.bytes|
  {
  }

  function SliceSent(s: State, sock: int): State
    requires s.Queue(sock) != [] && Unfinished(s.Queue(sock)[0]) && 0 < s.cfg.chunk
  {
    var item := s.Queue(sock)[0];
    var n := ChunkSize(item, s.cfg.chunk);
    s.(ch := s.ch.(wire := s.ch.wire + [SliceCommand(item, s.cfg.chunk)], hist := HistAfter(s.ch.hist, item, item.sentOffset + n)),
       eventBytes := s.eventBytes[sock := s.Written(sock) + n])
  }

  function Moved(s: State, sock: int, end: nat): State
    requires s.Queue(sock) != []
  {
    s.(ch := s.ch.(queue := s.ch.queue[sock := s.Queue(sock)[0 := s.Queue(sock)[0].(sentOffset := end)]]))
  }

  /** A write is a slice sent, and then the object moved on or taken out. */
  lemma WriteSplits(s: State, sock: int)
    requires s.Queue(sock) != [] && Unfinished(s.Queue(sock)[0]) && 0 < s.cfg.chunk
    ensures var item := s.Queue(sock)[0];
      var end := item.sentOffset + ChunkSize(item, s.cfg.chunk);
      Write(s, sock) == if end < |item.bytes| then Moved(SliceSent(s, sock), sock, end) else TakeOut(SliceSent(s, sock), sock, 0)
  {
    hide HistAfter, SliceCommand, Remove;
  }
}
