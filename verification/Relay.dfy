/**
 What each event of MoqRelayApp does to the forwarding state (QUIC transport), as functions. The class in
 RelayApp.dfy is proved to compute them; what holds over runs is proved in RelayRuns.dfy.
 */
module Relay {
  import opened Wrappers
  import opened Bytes
  import opened MoqFraming
  import opened SendQueue

  datatype DownSubgroup = DownSubgroup(subscriber: Bytes, alias: Bytes, groupId: int, subgroupId: int)

  datatype TrackKey = TrackKey(trackNamespace: Bytes, trackName: Bytes) {
    function Alias(): Bytes { trackNamespace + [SLASH] + trackName }
  }

  const SLASH: byte := 47

  function Find(b: Bytes, x: byte): (i: nat)
    ensures i <= |b| && (forall j :: 0 <= j < i ==> b[j] != x) && (i < |b| ==> b[i] == x)
  {
    if b == [] || b[0] == x then 0 else 1 + Find(b[1..], x)
  }

  /** The track of an alias: cut at its first slash. */
  function TrackOf(alias: Bytes): (r: Option<TrackKey>)
    ensures r.None? <==> SLASH !in alias
    ensures r.Some? ==> r.value.Alias() == alias && SLASH !in r.value.trackNamespace
  {
    var i := Find(alias, SLASH);
    if i == |alias| then None else
      assert alias == alias[..i] + [SLASH] + alias[i + 1..];
      Some(TrackKey(alias[..i], alias[i + 1..]))
  }

  /** One entry of subscriberByTrack, which is walked in the order of the sequence. */
  datatype Subscribers = Subscribers(track: TrackKey, ids: seq<Bytes>)

  datatype Config = Config(bufferLimit: int, chunk: int, queueLimit: int)

  /** `count` and `pending` are the counters the program keeps beside the queues. */
  datatype State = State(
    cfg: Config,
    ch: Channel<DownSubgroup>,
    count: map<int, int>,
    pending: int,
    blocked: set<int>,
    writeEvent: int,
    eventBytes: map<int, int>,
    timeouts: map<TrackKey, int>,
    sockets: map<Bytes, int>,
    byTrack: seq<Subscribers>)
  {
    function Queue(sock: int): seq<Item<DownSubgroup>> {
      ch.Items(sock)
    }

    function Count(sock: int): int {
      if sock in count then count[sock] else 0
    }

    function Written(sock: int): int {
      if sock in eventBytes then eventBytes[sock] else 0
    }
  }

  function Initial(cfg: Config): State {
    State(cfg, EmptyChannel({}, 1), map[], 0, {}, -1, map[], map[], map[], [])
  }

  // ---- Steps on one queue ----

  /** The object at `i` leaves the queue of `sock`. */
  function TakeOut(s: State, sock: int, i: nat): State
    requires i < |s.Queue(sock)|
  {
    s.(ch := Drop(s.ch, sock, i), count := s.count[sock := s.Count(sock) - 1], pending := s.pending - 1)
  }

  function ResetDownstream(s: State, item: Item<DownSubgroup>, code: int): State {
    s.(ch := ResetStream(s.ch, item.key, item.stream, code))
  }

  /** An object given up: if part of it is out, its stream is reset. */
  function GiveUp(s: State, sock: int, i: nat, code: int): State
    requires i < |s.Queue(sock)|
  {
    var item := s.Queue(sock)[i];
    TakeOut(if item.sentOffset > 0 then ResetDownstream(s, item, code) else s, sock, i)
  }

  function Write(s: State, sock: int): State
    requires s.Queue(sock) != [] && Unfinished(s.Queue(sock)[0]) && 0 < s.cfg.chunk
  {
    var item := s.Queue(sock)[0];
    var n := ChunkSize(item, s.cfg.chunk);
    var left := if item.sentOffset + n == |item.bytes| then 1 else 0;
    s.(ch := WriteFront(s.ch, sock, s.cfg.chunk),
       eventBytes := s.eventBytes[sock := s.Written(sock) + n],
       count := if left == 1 then s.count[sock := s.Count(sock) - 1] else s.count,
       pending := s.pending - left)
  }

  ghost predicate Sound(s: State) {
    0 < s.cfg.chunk && forall sock :: sock in s.ch.queue ==> AllUnfinished(s.ch.queue[sock])
  }

  function FlushStep(s: State, sock: int, now: int): State
    requires s.Queue(sock) != [] && Unfinished(s.Queue(sock)[0]) && 0 < s.cfg.chunk
  {
    var item := s.Queue(sock)[0];
    if item.key in s.ch.reset then TakeOut(s, sock, 0)
    else if item.Stale(now) then GiveUp(s, sock, 0, MOQ_ERR_DELIVERY_TIMEOUT)
    else Write(s, sock)
  }

  lemma QueueAfterTakeOut(s: State, sock: int, i: nat)
    requires i < |s.Queue(sock)|
    ensures TakeOut(s, sock, i).ch.queue == s.ch.queue[sock := Remove(s.Queue(sock), i)]
  {
    hide Remove;
  }

  lemma QueueAfterGiveUp(s: State, sock: int, i: nat, code: int)
    requires i < |s.Queue(sock)|
    ensures GiveUp(s, sock, i, code).ch.queue == s.ch.queue[sock := Remove(s.Queue(sock), i)]
    ensures GiveUp(s, sock, i, code).cfg == s.cfg
  {
    hide Remove;
  }

  /** `r` has the queues of `s`, except that the first object of `sock` has left it or come nearer its end. */
  ghost predicate Advanced(s: State, sock: int, r: State)
    requires s.Queue(sock) != []
  {
    && r.cfg == s.cfg
    && sock in r.ch.queue && r.ch.queue == s.ch.queue[sock := r.ch.queue[sock]]
    && var q, q1 := s.Queue(sock), r.ch.queue[sock];
      || q1 == q[1..]
      || (|q1| == |q| && q1[1..] == q[1..] && q1[0].bytes == q[0].bytes && q[0].sentOffset < q1[0].sentOffset < |q[0].bytes|)
  }

  lemma WriteAdvances(s: State, sock: int)
    requires Sound(s) && s.Queue(sock) != []
    ensures Advanced(s, sock, Write(s, sock))
  {
    hide Encode, HistAfter, SliceCommand;
    var q, q1 := s.Queue(sock), Write(s, sock).Queue(sock);
    assert q[1..] == Remove(q, 0);
    assert |q1| == |q| ==> q1[1..] == q[1..];
  }

  lemma FlushStepAdvances(s: State, sock: int, now: int)
    requires Sound(s) && s.Queue(sock) != []
    ensures Advanced(s, sock, FlushStep(s, sock, now))
  {
    QueueAfterTakeOut(s, sock, 0);
    QueueAfterGiveUp(s, sock, 0, MOQ_ERR_DELIVERY_TIMEOUT);
    WriteAdvances(s, sock);
    assert s.Queue(sock)[1..] == Remove(s.Queue(sock), 0);
    hide WriteFront, Drop, TakeOut, Write, GiveUp;
  }

  lemma AdvancedShrinks(s: State, sock: int, r: State)
    requires Sound(s) && s.Queue(sock) != [] && Advanced(s, sock, r)
    ensures Sound(r) && 0 <= Work(r.Queue(sock)) < Work(s.Queue(sock))
  {
    var q, q1 := s.Queue(sock), r.ch.queue[sock];
    assert AllUnfinished(q1);
    WorkNonNegative(q1);
  }

  lemma FlushStepShrinks(s: State, sock: int, now: int)
    requires Sound(s) && s.Queue(sock) != []
    ensures Sound(FlushStep(s, sock, now))
    ensures 0 <= Work(FlushStep(s, sock, now).Queue(sock)) < Work(s.Queue(sock))
    ensures FlushStep(s, sock, now).cfg == s.cfg
  {
    FlushStepAdvances(s, sock, now);
    hide FlushStep, Work, Sound;
    AdvancedShrinks(s, sock, FlushStep(s, sock, now));
  }

  /** The loop of flushSocket; `qlen` is the queue length QUIC reports throughout the event. */
  ghost function FlushLoop(s: State, sock: int, now: int, qlen: int): (r: State)
    requires Sound(s)
    ensures Sound(r)
    decreases Work(s.Queue(sock))
  {
    if sock in s.blocked || s.Queue(sock) == [] || qlen + s.Written(sock) >= s.cfg.queueLimit then s
    else
      FlushStepShrinks(s, sock, now);
      FlushLoop(FlushStep(s, sock, now), sock, now, qlen)
  }

  function EnterEvent(s: State, now: int): State {
    if s.writeEvent != now then s.(writeEvent := now, eventBytes := map[]) else s
  }

  ghost function Flush(s: State, sock: int, now: int, qlen: int): (r: State)
    requires Sound(s)
    ensures Sound(r)
  {
    FlushLoop(EnterEvent(s, now), sock, now, qlen)
  }

  // ---- Ending a subscription ----

  /** Every object of the track still queued for the connection is given up. */
  function SweepTrack(s: State, sock: int, alias: Bytes, i: nat): State
    requires i <= |s.Queue(sock)|
    decreases |s.Queue(sock)| - i
  {
    if i == |s.Queue(sock)| then s
    else if s.Queue(sock)[i].key.alias == alias then
      SweepTrack(GiveUp(s, sock, i, MOQ_ERR_SEND_BUFFER_OVERFLOW), sock, alias, i)
    else SweepTrack(s, sock, alias, i + 1)
  }

  function Without(ids: seq<Bytes>, id: Bytes): (r: seq<Bytes>)
    ensures forall x :: x in r <==> x in ids && x != id
  {
    if ids == [] then [] else (if ids[0] == id then [] else [ids[0]]) + Without(ids[1..], id)
  }

  function Unsubscribe(entries: seq<Subscribers>, track: TrackKey, id: Bytes): seq<Subscribers> {
    if entries == [] then []
    else if entries[0].track == track then
      var ids := Without(entries[0].ids, id);
      if ids == [] then entries[1..] else [Subscribers(track, ids)] + entries[1..]
    else [entries[0]] + Unsubscribe(entries[1..], track, id)
  }

  function SubscribersOf(entries: seq<Subscribers>, track: TrackKey): seq<Bytes> {
    if entries == [] then [] else if entries[0].track == track then entries[0].ids else SubscribersOf(entries[1..], track)
  }

  function TracksOf(entries: seq<Subscribers>, id: Bytes): seq<TrackKey> {
    if entries == [] then [] else (if id in entries[0].ids then [entries[0].track] else []) + TracksOf(entries[1..], id)
  }

  function DoneMessage(sock: int, track: TrackKey, status: int): Command {
    PublishDone(sock, -1, track.Alias(), status)
  }

  /** endSubscriberTrack: give up what is queued, then PUBLISH_DONE, then forget the subscription. */
  function EndSubscriberTrack(s: State, id: Bytes, track: TrackKey, status: int): State {
    if id !in s.sockets then s
    else
      var sock := s.sockets[id];
      var r := SweepTrack(s, sock, track.Alias(), 0);
      r.(ch := r.ch.(wire := r.ch.wire + [DoneMessage(sock, track, status)]), byTrack := Unsubscribe(r.byTrack, track, id))
  }

  function EndTracks(s: State, id: Bytes, tracks: seq<TrackKey>, status: int): State
    decreases |tracks|
  {
    if tracks == [] then s else EndTracks(EndSubscriberTrack(s, id, tracks[0], status), id, tracks[1..], status)
  }

  /** A track has ended upstream: it ends for every subscriber it has. */
  function EndForAll(s: State, ids: seq<Bytes>, track: TrackKey, status: int): State
    decreases |ids|
  {
    if ids == [] then s else EndForAll(EndSubscriberTrack(s, ids[0], track, status), ids[1..], track, status)
  }

  // ---- Forwarding ----

  function KeyFor(id: Bytes, f: ObjectFrame): DownSubgroup {
    DownSubgroup(id, f.trackAlias, f.groupId, f.subgroupId)
  }

  /** The delivery timeout announced for a track; 0 when none was. */
  function TimeoutIn(timeouts: map<TrackKey, int>, alias: Bytes): int {
    match TrackOf(alias)
    case None => 0
    case Some(track) => if track in timeouts then timeouts[track] else 0
  }

  function TimeoutOf(s: State, f: ObjectFrame): int {
    TimeoutIn(s.timeouts, f.trackAlias)
  }

  /** An object enters the queue of `sock`, on the stream of its subgroup. */
  function Enqueued(s: State, sock: int, k: DownSubgroup, f: ObjectFrame): State {
    s.(ch := Accept(s.ch, sock, k, f, TimeoutOf(s, f)), count := s.count[sock := s.Count(sock) + 1], pending := s.pending + 1)
  }

  /** A queue over its limit ends every subscription of the subscriber. */
  function Limited(s: State, id: Bytes, sock: int): State {
    if s.Count(sock) <= s.cfg.bufferLimit then s
    else EndTracks(s, id, TracksOf(s.byTrack, id), PUBDONE_TOO_FAR_BEHIND)
  }

  /** forwardToSubscriber over QUIC. */
  ghost function Forward(s: State, id: Bytes, f: ObjectFrame, now: int, qlen: int -> int): (r: State)
    requires Sound(s)
    ensures Sound(r)
  {
    if id !in s.sockets || KeyFor(id, f) in s.ch.reset then s
    else
      var sock := s.sockets[id];
      EnqueuedSound(s, sock, KeyFor(id, f), f);
      LimitedSound(Enqueued(s, sock, KeyFor(id, f), f), id, sock);
      Flush(Limited(Enqueued(s, sock, KeyFor(id, f), f), id, sock), sock, now, qlen(sock))
  }

  ghost function ForwardAll(s: State, ids: seq<Bytes>, f: ObjectFrame, now: int, qlen: int -> int): (r: State)
    requires Sound(s)
    ensures Sound(r)
    decreases |ids|
  {
    if ids == [] then s else ForwardAll(Forward(s, ids[0], f, now, qlen), ids[1..], f, now, qlen)
  }

  /** onObjectFrame: a whole object has come from the publisher. */
  ghost function OnObject(s: State, f: ObjectFrame, now: int, qlen: int -> int): (r: State)
    requires Sound(s)
    ensures Sound(r)
  {
    match TrackOf(f.trackAlias)
    case None => s
    case Some(track) => ForwardAll(s, SubscribersOf(s.byTrack, track), f, now, qlen)
  }

  // ---- Connections ----

  function Subscribed(entries: seq<Subscribers>, track: TrackKey, id: Bytes): seq<Subscribers> {
    if entries == [] then [Subscribers(track, [id])]
    else if entries[0].track == track then [Subscribers(track, entries[0].ids + [id])] + entries[1..]
    else [entries[0]] + Subscribed(entries[1..], track, id)
  }

  function OnSubscribe(s: State, id: Bytes, track: TrackKey, sock: int): State {
    s.(sockets := s.sockets[id := sock], byTrack := Subscribed(s.byTrack, track, id))
  }

  /** The subscribers reached over a connection. */
  function Reached(sockets: map<Bytes, int>, sock: int): set<Bytes> {
    set id | id in sockets && sockets[id] == sock
  }

  /** The entries of subscribers that are still there. */
  function OfOthers(m: map<DownSubgroup, int>, gone: set<Bytes>): map<DownSubgroup, int> {
    map k | k in m && k.subscriber !in gone :: m[k]
  }

  /** The send state of a connection goes. */
  function Released(s: State, sock: int): State {
    s.(ch := s.ch.(queue := s.ch.queue - {sock}), count := s.count - {sock}, pending := s.pending - s.Count(sock), blocked := s.blocked - {sock})
  }

  /** So do its subscribers, and what is known of their streams. */
  function Forgotten(s: State, gone: set<Bytes>): State {
    s.(ch := s.ch.(open := OfOthers(s.ch.open, gone), reset := OfOthers(s.ch.reset, gone)), sockets := s.sockets - gone)
  }

  /** socketClosed. */
  function OnClosed(s: State, sock: int): State {
    Forgotten(Released(s, sock), Reached(s.sockets, sock))
  }

  /** `sockSend[sock]`: a connection's send state comes into being when it is first looked up. */
  function Touched(s: State, sock: int): State {
    if sock in s.ch.queue then s
    else s.(ch := s.ch.(queue := s.ch.queue[sock := []]), count := s.count[sock := 0])
  }

  function OnQueueFull(s: State, sock: int): State {
    var t := Touched(s, sock);
    t.(blocked := t.blocked + {sock})
  }

  ghost function OnQueueDrained(s: State, sock: int, now: int, queueLength: int): (r: State)
    requires Sound(s)
    ensures Sound(r)
  {
    var t := Touched(s, sock);
    Flush(t.(blocked := t.blocked - {sock}), sock, now, queueLength)
  }

  // ---- Events ----

  datatype Event =
    | Announce(track: TrackKey, timeout: int)
    | Subscribe(id: Bytes, track: TrackKey, sock: int)
    | Object(frame: ObjectFrame, now: int, qlen: int -> int)
    | UpstreamDone(track: TrackKey)
    | QueueFull(sock: int)
    | QueueDrained(sock: int, now: int, queueLength: int)
    | Closed(sock: int)

  ghost function Step(s: State, e: Event): (r: State)
    requires Sound(s)
    ensures Sound(r)
  {
    match e
    case Announce(track, timeout) => s.(timeouts := s.timeouts[track := timeout])
    case Subscribe(id, track, sock) => OnSubscribe(s, id, track, sock)
    case Object(f, now, qlen) => OnObject(s, f, now, qlen)
    case UpstreamDone(track) =>
      EndForAllSound(s, SubscribersOf(s.byTrack, track), track, PUBDONE_TRACK_ENDED);
      EndForAll(s, SubscribersOf(s.byTrack, track), track, PUBDONE_TRACK_ENDED)
    case QueueFull(sock) => OnQueueFull(s, sock)
    case QueueDrained(sock, now, queueLength) => OnQueueDrained(s, sock, now, queueLength)
    case Closed(sock) => OnClosed(s, sock)
  }

  ghost function Run(s: State, es: seq<Event>): (r: State)
    requires Sound(s)
    ensures Sound(r)
    decreases |es|
  {
    if es == [] then s else Run(Step(s, es[0]), es[1..])
  }

  lemma EnqueuedSound(s: State, sock: int, k: DownSubgroup, f: ObjectFrame)
    requires Sound(s)
    ensures Sound(Enqueued(s, sock, k, f)) && Enqueued(s, sock, k, f).cfg == s.cfg
  {
    hide Enqueued, Encode, NewItem;
    var item := EnqueuedQueue(s, sock, k, f);
    assert AllUnfinished(Insert(s.Queue(sock), item));
  }

  lemma EnqueuedQueue(s: State, sock: int, k: DownSubgroup, f: ObjectFrame) returns (item: Item<DownSubgroup>)
    ensures Unfinished(item)
    ensures Enqueued(s, sock, k, f).ch.queue == s.ch.queue[sock := Insert(s.Queue(sock), item)]
    ensures Enqueued(s, sock, k, f).cfg == s.cfg
  {
    hide Encode, Insert, TimeoutIn;
    item := NewItem(k, Enqueued(s, sock, k, f).ch.open[k], f, TimeoutOf(s, f));
    assert |Encode(f)| > 0;
  }

  lemma GiveUpSound(s: State, sock: int, i: nat, code: int)
    requires Sound(s) && i < |s.Queue(sock)|
    ensures Sound(GiveUp(s, sock, i, code)) && GiveUp(s, sock, i, code).cfg == s.cfg
    ensures |GiveUp(s, sock, i, code).Queue(sock)| == |s.Queue(sock)| - 1
  {
    QueueAfterGiveUp(s, sock, i, code);
    hide GiveUp;
    assert AllUnfinished(Remove(s.Queue(sock), i));
  }

  lemma {:induction false} SweepTrackSound(s: State, sock: int, alias: Bytes, i: nat)
    requires Sound(s) && i <= |s.Queue(sock)|
    ensures Sound(SweepTrack(s, sock, alias, i)) && SweepTrack(s, sock, alias, i).cfg == s.cfg
    decreases |s.Queue(sock)| - i
  {
    hide Sound, GiveUp;
    if i < |s.Queue(sock)| {
      GiveUpSound(s, sock, i, MOQ_ERR_SEND_BUFFER_OVERFLOW);
      if s.Queue(sock)[i].key.alias == alias {
        SweepTrackSound(GiveUp(s, sock, i, MOQ_ERR_SEND_BUFFER_OVERFLOW), sock, alias, i);
      } else {
        SweepTrackSound(s, sock, alias, i + 1);
      }
    }
  }

  lemma EndSubscriberTrackSound(s: State, id: Bytes, track: TrackKey, status: int)
    requires Sound(s)
    ensures Sound(EndSubscriberTrack(s, id, track, status)) && EndSubscriberTrack(s, id, track, status).cfg == s.cfg
  {
    if id in s.sockets {
      SweepTrackSound(s, s.sockets[id], track.Alias(), 0);
      hide SweepTrack;
    }
  }

  lemma {:induction false} EndTracksSound(s: State, id: Bytes, tracks: seq<TrackKey>, status: int)
    requires Sound(s)
    ensures Sound(EndTracks(s, id, tracks, status)) && EndTracks(s, id, tracks, status).cfg == s.cfg
    decreases |tracks|
  {
    if tracks != [] {
      EndSubscriberTrackSound(s, id, tracks[0], status);
      EndTracksSound(EndSubscriberTrack(s, id, tracks[0], status), id, tracks[1..], status);
    }
  }

  lemma {:induction false} EndForAllSound(s: State, ids: seq<Bytes>, track: TrackKey, status: int)
    requires Sound(s)
    ensures Sound(EndForAll(s, ids, track, status))
    decreases |ids|
  {
    if ids != [] {
      EndSubscriberTrackSound(s, ids[0], track, status);
      EndForAllSound(EndSubscriberTrack(s, ids[0], track, status), ids[1..], track, status);
    }
  }

  lemma LimitedSound(s: State, id: Bytes, sock: int)
    requires Sound(s)
    ensures Sound(Limited(s, id, sock)) && Limited(s, id, sock).cfg == s.cfg
  {
    EndTracksSound(s, id, TracksOf(s.byTrack, id), PUBDONE_TOO_FAR_BEHIND);
  }
}
