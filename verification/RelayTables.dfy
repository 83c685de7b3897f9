/**
 What the relay knows apart from its queues: the timeouts announced for tracks and the connections its
 subscribers are reached over, after any run. And what an object that has to wait is queued with.
 */
module RelayTables {
  import opened Wrappers
  import opened Bytes
  import opened MoqFraming
  import opened SendQueue
  import opened Relay
  import opened RelayInvariant
  import opened RelayRuns
  import opened RelayDelivery
  import opened RelayEndings

  // ---- Operations on the queues leave the tables alone ----

  ghost predicate SameTables(s: State, r: State) {
    r.sockets == s.sockets && r.timeouts == s.timeouts && r.cfg == s.cfg
  }

  lemma StepTables(s: State, sock: int, now: int)
    requires s.Queue(sock) != [] && Unfinished(s.Queue(sock)[0]) && 0 < s.cfg.chunk
    ensures SameTables(s, FlushStep(s, sock, now))
  {
    hide WriteFront, Drop;
  }

  lemma {:induction false} FlushTables(s: State, sock: int, now: int, qlen: int)
    requires Sound(s)
    ensures SameTables(s, FlushLoop(s, sock, now, qlen))
    decreases Work(s.Queue(sock))
  {
    hide FlushStep, Work;
    if !(sock in s.blocked || s.Queue(sock) == [] || qlen + s.Written(sock) >= s.cfg.queueLimit) {
      FlushStepShrinks(s, sock, now);
      StepTables(s, sock, now);
      FlushTables(FlushStep(s, sock, now), sock, now, qlen);
    }
  }

  lemma GiveUpTables(s: State, sock: int, i: nat)
    requires i < |s.Queue(sock)|
    ensures SameTables(s, GiveUp(s, sock, i, MOQ_ERR_SEND_BUFFER_OVERFLOW))
    ensures |GiveUp(s, sock, i, MOQ_ERR_SEND_BUFFER_OVERFLOW).Queue(sock)| == |s.Queue(sock)| - 1
  {
    QueueAfterGiveUp(s, sock, i, MOQ_ERR_SEND_BUFFER_OVERFLOW);
  }

  lemma {:induction false} SweepTables(s: State, sock: int, alias: Bytes, i: nat)
    requires i <= |s.Queue(sock)|
    ensures SameTables(s, SweepTrack(s, sock, alias, i))
    decreases |s.Queue(sock)| - i
  {
    if i < |s.Queue(sock)| {
      GiveUpTables(s, sock, i);
      hide GiveUp;
      if s.Queue(sock)[i].key.alias == alias {
        SweepTables(GiveUp(s, sock, i, MOQ_ERR_SEND_BUFFER_OVERFLOW), sock, alias, i);
      } else {
        SweepTables(s, sock, alias, i + 1);
      }
    }
  }

  lemma EndTables(s: State, id: Bytes, track: TrackKey, status: int)
    ensures SameTables(s, EndSubscriberTrack(s, id, track, status))
  {
    hide SweepTrack, Unsubscribe;
    if id in s.sockets {
      SweepTables(s, s.sockets[id], track.Alias(), 0);
    }
  }

  lemma {:induction false} EndTracksTables(s: State, id: Bytes, tracks: seq<TrackKey>, status: int)
    ensures SameTables(s, EndTracks(s, id, tracks, status))
    decreases |tracks|
  {
    hide EndSubscriberTrack;
    if tracks != [] {
      EndTables(s, id, tracks[0], status);
      EndTracksTables(EndSubscriberTrack(s, id, tracks[0], status), id, tracks[1..], status);
    }
  }

  lemma {:induction false} EndForAllTables(s: State, ids: seq<Bytes>, track: TrackKey, status: int)
    ensures SameTables(s, EndForAll(s, ids, track, status))
    decreases |ids|
  {
    hide EndSubscriberTrack;
    if ids != [] {
      EndTables(s, ids[0], track, status);
      EndForAllTables(EndSubscriberTrack(s, ids[0], track, status), ids[1..], track, status);
    }
  }

  lemma ForwardTables(s: State, id: Bytes, f: ObjectFrame, now: int, qlen: int -> int)
    requires Sound(s)
    ensures SameTables(s, Forward(s, id, f, now, qlen))
  {
    hide EndTracks, FlushLoop, Accept;
    if !(id !in s.sockets || KeyFor(id, f) in s.ch.reset) {
      var sock := s.sockets[id];
      var a := Enqueued(s, sock, KeyFor(id, f), f);
      EnqueuedSound(s, sock, KeyFor(id, f), f);
      LimitedSound(a, id, sock);
      EndTracksTables(a, id, TracksOf(a.byTrack, id), PUBDONE_TOO_FAR_BEHIND);
      FlushTables(EnterEvent(Limited(a, id, sock), now), sock, now, qlen(sock));
    }
  }

  lemma {:induction false} ForwardAllTables(s: State, ids: seq<Bytes>, f: ObjectFrame, now: int, qlen: int -> int)
    requires Sound(s)
    ensures SameTables(s, ForwardAll(s, ids, f, now, qlen))
    decreases |ids|
  {
    hide Forward;
    if ids != [] {
      ForwardTables(s, ids[0], f, now, qlen);
      ForwardAllTables(Forward(s, ids[0], f, now, qlen), ids[1..], f, now, qlen);
    }
  }

  // ---- The tables after a run ----

  /** The timeout last announced for a track. */
  function Announced(es: seq<Event>, track: TrackKey): Option<int> {
    if es == [] then None else
      match es[|es| - 1]
      case Announce(t, timeout) => if t == track then Some(timeout) else Announced(es[..|es| - 1], track)
      case _ => Announced(es[..|es| - 1], track)
  }

  /** The connection a subscriber last subscribed over, unless that has closed since. */
  function ReachedOver(es: seq<Event>, id: Bytes): Option<int> {
    if es == [] then None else
      var before := ReachedOver(es[..|es| - 1], id);
      match es[|es| - 1]
      case Subscribe(i, _, sock) => if i == id then Some(sock) else before
      case Closed(sock) => if before == Some(sock) then None else before
      case _ => before
  }

  lemma StepKnows(s: State, e: Event, track: TrackKey, id: Bytes)
    requires Sound(s)
    ensures var r := Step(s, e);
      && r.timeouts == (if e.Announce? then s.timeouts[e.track := e.timeout] else s.timeouts)
      && (id in r.sockets <==> if e.Subscribe? && e.id == id then true else if e.Closed? then id in s.sockets && s.sockets[id] != e.sock else id in s.sockets)
      && (id in r.sockets ==> r.sockets[id] == if e.Subscribe? && e.id == id then e.sock else s.sockets[id])
  {
    hide ForwardAll, EndForAll, FlushLoop;
    match e
    case Object(f, now, qlen) =>
      if TrackOf(f.trackAlias).Some? {
        ForwardAllTables(s, SubscribersOf(s.byTrack, TrackOf(f.trackAlias).value), f, now, qlen);
      }
    case UpstreamDone(t) => EndForAllTables(s, SubscribersOf(s.byTrack, t), t, PUBDONE_TRACK_ENDED);
    case QueueDrained(sock, now, queueLength) => DrainedTables(s, sock, now, queueLength);
    case _ =>
  }

  lemma DrainedTables(s: State, sock: int, now: int, queueLength: int)
    requires Sound(s)
    ensures SameTables(s, OnQueueDrained(s, sock, now, queueLength))
  {
    hide FlushLoop;
    FlushTables(EnterEvent(Unblocked(s, sock), now), sock, now, queueLength);
  }

  lemma {:induction false} RunAppend(s: State, es: seq<Event>, e: Event)
    requires Sound(s)
    ensures Run(s, es + [e]) == Step(Run(s, es), e)
    decreases |es|
  {
    hide Step, Sound;
    if es == [] {
      assert [] + [e] == [e] && [e][1..] == [];
      assert Run(s, [e]) == Run(Step(s, e), []);
    } else {
      assert (es + [e])[0] == es[0] && (es + [e])[1..] == es[1..] + [e];
      RunAppend(Step(s, es[0]), es[1..], e);
    }
  }

  /**
   * After every run, the timeout in force for a track is the one last announced, and a subscriber is connected
   * exactly when it subscribed over a connection that has not closed since.
   */
  lemma {:induction false} TablesAfterRun(cfg: Config, es: seq<Event>, track: TrackKey, id: Bytes)
    requires 0 < cfg.chunk
    ensures var r := Run(Initial(cfg), es);
      && (track in r.timeouts <==> Announced(es, track).Some?) && (track in r.timeouts ==> r.timeouts[track] == Announced(es, track).value)
      && (id in r.sockets <==> ReachedOver(es, id).Some?) && (id in r.sockets ==> r.sockets[id] == ReachedOver(es, id).value)
    decreases |es|
  {
    hide Step;
    if es != [] {
      var n := |es| - 1;
      assert es == es[..n] + [es[n]];
      RunAppend(Initial(cfg), es[..n], es[n]);
      TablesAfterRun(cfg, es[..n], track, id);
      StepKnows(Run(Initial(cfg), es[..n]), es[n], track, id);
      hide Run, Sound;
    }
  }

  /** A SUBSCRIBE adds this subscription and no other, and says where the subscriber is reached; queues stay. */
  lemma SubscribeExact(s: State, id: Bytes, track: TrackKey, sock: int)
    requires Sound(s)
    ensures var r := Step(s, Subscribe(id, track, sock));
      && (forall t, i :: SubscribedTo(r.byTrack, t, i) <==> (t == track && i == id) || SubscribedTo(s.byTrack, t, i))
      && id in r.sockets && r.sockets[id] == sock && (forall i :: i != id ==> (i in r.sockets <==> i in s.sockets))
      && (forall i :: i in s.sockets && i != id ==> r.sockets[i] == s.sockets[i]) && r.ch == s.ch && r.blocked == s.blocked
  {
    hide SubscribedTo, Subscribed, Sound;
    forall t, i
      ensures SubscribedTo(Subscribed(s.byTrack, track, id), t, i) <==> (t == track && i == id) || SubscribedTo(s.byTrack, t, i)
    {
      SubscribeAdds(s.byTrack, track, id, t, i);
    }
  }

  // ---- What waits ----

  /** One more waits, at place `i`: behind all that is as urgent or more, before all that is less urgent. */
  ghost predicate JoinsAt(q: seq<Item<DownSubgroup>>, q1: seq<Item<DownSubgroup>>, i: nat, priority: int) {
    && i <= |q| && |q1| == |q| + 1 && q1[..i] == q[..i] && q1[i + 1..] == q[i..]
    && (forall j :: 0 <= j < i ==> q[j].priority <= priority) && (forall j :: i <= j < |q| ==> priority < q[j].priority)
  }

  /**
   * An object for a blocked connection joins its queue in its turn, whole, with the age and the timeout by
   * which it will be judged; the others stay, and nothing is sent.
   */
  lemma WaitsInTurn(s: State, arrived: seq<ObjectFrame>, id: Bytes, f: ObjectFrame, track: TrackKey, now: int, qlen: int -> int) returns (i: nat)
    requires Inv(s, arrived) && Sound(s)
    requires f.trackAlias == track.trackNamespace + [47] + track.trackName && 47 !in track.trackNamespace
    requires id in s.sockets && s.sockets[id] in s.blocked && SubgroupOf(id, f) !in s.ch.reset
    requires |s.Queue(s.sockets[id])| < s.cfg.bufferLimit
    ensures var r, sock := Forward(s, id, f, now, qlen), s.sockets[id];
      var q, q1 := s.Queue(sock), r.Queue(sock);
      && JoinsAt(q, q1, i, f.priority)
      && q1[i].key == SubgroupOf(id, f) && q1[i].frame == f && q1[i].bytes == Encode(f) && q1[i].sentOffset == 0
      && q1[i].priority == f.priority && q1[i].createdAt == f.creationTime
      && q1[i].timeout == (if track in s.timeouts then s.timeouts[track] else 0)
      && r.ch.wire == s.ch.wire
  {
    var sock, k := s.sockets[id], KeyFor(id, f);
    OnlyEnqueued(s, arrived, id, f, now, qlen);
    i := EnqueuedInTurn(s, arrived, sock, k, f, track);
    hide Inv, Sound, Forward, Enqueued, Encode;
  }

  lemma OnlyEnqueued(s: State, arrived: seq<ObjectFrame>, id: Bytes, f: ObjectFrame, now: int, qlen: int -> int)
    requires Inv(s, arrived) && Sound(s)
    requires id in s.sockets && s.sockets[id] in s.blocked && SubgroupOf(id, f) !in s.ch.reset
    requires |s.Queue(s.sockets[id])| < s.cfg.bufferLimit
    ensures Forward(s, id, f, now, qlen).ch == Enqueued(s, s.sockets[id], KeyFor(id, f), f).ch
  {
    var sock, k := s.sockets[id], KeyFor(id, f);
    var a := Enqueued(s, sock, k, f);
    EnqueuedQuiet(s, sock, k, f);
    OneLonger(s, arrived, sock, k, f);
    EnqueuedSound(s, sock, k, f);
    LimitedSound(a, id, sock);
    hide Inv, Sound, Enqueued, EndTracks;
    assert Limited(a, id, sock) == a;
    assert FlushLoop(EnterEvent(a, now), sock, now, qlen(sock)) == EnterEvent(a, now);
  }

  lemma EnqueuedInTurn(s: State, arrived: seq<ObjectFrame>, sock: int, k: DownSubgroup, f: ObjectFrame, track: TrackKey) returns (i: nat)
    requires Inv(s, arrived) && k !in s.ch.reset
    requires f.trackAlias == track.trackNamespace + [47] + track.trackName && 47 !in track.trackNamespace
    ensures var q, q1 := s.Queue(sock), Enqueued(s, sock, k, f).Queue(sock);
      && JoinsAt(q, q1, i, f.priority)
      && q1[i].key == k && q1[i].frame == f && q1[i].bytes == Encode(f) && q1[i].sentOffset == 0
      && q1[i].priority == f.priority && q1[i].createdAt == f.creationTime
      && q1[i].timeout == (if track in s.timeouts then s.timeouts[track] else 0)
    ensures Enqueued(s, sock, k, f).ch.wire == s.ch.wire
  {
    InvStreams(s, arrived);
    AcceptShape(s.ch, sock, k, f, TimeoutOf(s, f));
    EnqueuedQuiet(s, sock, k, f);
    FirstSlash(f.trackAlias, track);
    QueueSorted(s, arrived, sock);
    var q, item := s.Queue(sock), NewItem(k, Enqueued(s, sock, k, f).ch.open[k], f, TimeoutOf(s, f));
    i := InsertPosition(q, item.priority);
    InsertedAround(q, item);
    hide Inv, Accept, Insert, InsertPosition, Encode, Streams, TrackOf, JoinsAt;
  }

  lemma QueueSorted(s: State, arrived: seq<ObjectFrame>, sock: int)
    requires Inv(s, arrived)
    ensures forall a, b :: 0 <= a < b < |s.Queue(sock)| ==> s.Queue(sock)[a].priority <= s.Queue(sock)[b].priority
  {
  }

  lemma InsertedAround(q: seq<Item<DownSubgroup>>, item: Item<DownSubgroup>)
    requires forall a, b :: 0 <= a < b < |q| ==> q[a].priority <= q[b].priority
    ensures var i := InsertPosition(q, item.priority);
      JoinsAt(q, Insert(q, item), i, item.priority) && Insert(q, item)[i] == item
  {
    InsertedSlices(q, item);
    hide Insert;
    var i := InsertPosition(q, item.priority);
    forall j | i <= j < |q|
      ensures item.priority < q[j].priority
    {
      assert q[i].priority <= q[j].priority;
    }
  }

  lemma InsertedSlices(q: seq<Item<DownSubgroup>>, item: Item<DownSubgroup>)
    ensures var i, r := InsertPosition(q, item.priority), Insert(q, item);
      i <= |q| && |r| == |q| + 1 && r[..i] == q[..i] && r[i] == item && r[i + 1..] == q[i..]
  {
    var i := InsertPosition(q, item.priority);
    hide InsertPosition;
    var r := q[..i] + [item] + q[i..];
    assert r[..i] == q[..i] && r[i + 1..] == q[i..];
  }
}
