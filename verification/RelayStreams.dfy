/**
 Which downstream streams a subgroup gets over a run of the relay. The relay keeps a subscriber's streams in
 mind until its connection closes: until then a subgroup has one stream, open or reset. A subscriber that
 comes back afterwards can get a second stream for a subgroup, with later objects only.
 */
module RelayStreams {
  import opened Bytes
  import opened MoqFraming
  import opened SendQueue
  import opened Relay
  import opened RelayInvariant
  import opened RelayRuns

  /** The objects offered on an earlier stream of a subgroup all come before those on a later one. */
  lemma LaterStreamsLaterObjects(cfg: Config, es: seq<Event>, a: int, b: int)
    requires 0 < cfg.chunk && RunFits(Initial(cfg), [], es) && Earlier(Run(Initial(cfg), es).ch, a, b)
    ensures var c := Run(Initial(cfg), es).ch;
      !c.IsOpen(a) && forall f, g :: f in c.hist[a].offered && g in c.hist[b].offered ==> f.objectId < g.objectId
  {
    InitialInv(cfg);
    RunInv(Initial(cfg), [], es);
    var c := Run(Initial(cfg), es).ch;
    hide Core, Listed, Run, RunFits;
    assert AllBelow(c.hist[a].offered, c.hist[b].offered);
  }

  // ---- Subscribers that stay ----

  /** The subscriber was there before, with streams of its own, and lost its connection. */
  ghost predicate Returns(s: State, id: Bytes) {
    id !in s.sockets && exists n :: n in s.ch.hist && s.ch.hist[n].key.subscriber == id
  }

  /** No SUBSCRIBE of the run comes from a subscriber that returns. */
  ghost predicate NoneReturns(s: State, es: seq<Event>)
    requires Sound(s)
    decreases |es|
  {
    es == [] || ((es[0].Subscribe? ==> !Returns(s, es[0].id)) && NoneReturns(Step(s, es[0]), es[1..]))
  }

  /** Every subgroup that ever had a stream has it open or reset, while its subscriber is connected. */
  ghost predicate Remembered(s: State) {
    && (forall n :: n in s.ch.hist ==> Taken(s.ch, s.ch.hist[n].key) || s.ch.hist[n].key.subscriber !in s.sockets)
    && OnePerKey(s.ch)
  }

  ghost predicate OnePerKey(c: Channel<DownSubgroup>) {
    forall a, b :: a in c.hist && b in c.hist && c.hist[a].key == c.hist[b].key ==> a == b
  }

  lemma RememberedKept(s: State, r: State)
    requires Remembered(s) && Keeps(s.ch, r.ch) && r.sockets == s.sockets
    ensures Remembered(r)
  {
    assert forall n :: n in r.ch.hist ==> SameOwner(s.ch.hist[n], r.ch.hist[n]);
  }

  lemma EnqueuedRemembered(s: State, id: Bytes, f: ObjectFrame)
    requires Remembered(s) && Streams(s.ch) && id in s.sockets && KeyFor(id, f) !in s.ch.reset
    ensures Remembered(Enqueued(s, s.sockets[id], KeyFor(id, f), f))
  {
    hide Accept, Insert, NewItem, Remembered, Taken;
    var k, r := KeyFor(id, f), Enqueued(s, s.sockets[id], KeyFor(id, f), f);
    AcceptShape(s.ch, s.sockets[id], k, f, TimeoutOf(s, f));
    EnqueuedTaken(s, s.sockets[id], k, f);
    RememberedWith(s, r, k);
  }

  /** The open stream of `k`, new or not, is the only one its subgroup has. */
  lemma RememberedWith(s: State, r: State, k: DownSubgroup)
    requires Remembered(s) && k.subscriber in s.sockets && r.sockets == s.sockets && k !in s.ch.reset
    requires k in r.ch.open && r.ch.open[k] in r.ch.hist && r.ch.hist[r.ch.open[k]].key == k
    requires r.ch.hist.Keys == s.ch.hist.Keys + {r.ch.open[k]} && (k in s.ch.open ==> r.ch.open[k] == s.ch.open[k])
    requires k in s.ch.open ==> s.ch.open[k] in s.ch.hist && s.ch.hist[s.ch.open[k]].key == k
    requires forall n :: n in s.ch.hist && n != r.ch.open[k] ==> r.ch.hist[n] == s.ch.hist[n]
    requires forall j :: Taken(s.ch, j) || j == k ==> Taken(r.ch, j)
    ensures Remembered(r)
  {
    forall n | n in r.ch.hist && r.ch.hist[n].key == k
      ensures n == r.ch.open[k]
    {
      assert n in s.ch.hist ==> Taken(s.ch, s.ch.hist[n].key) || s.ch.hist[n].key.subscriber !in s.sockets;
    }
  }

  lemma EnqueuedTaken(s: State, sock: int, k: DownSubgroup, f: ObjectFrame)
    ensures var r := Enqueued(s, sock, k, f);
      r.sockets == s.sockets && forall j :: Taken(s.ch, j) || j == k ==> Taken(r.ch, j)
  {
    hide Insert, NewItem;
  }

  lemma ForwardRemembered(s: State, arrived: seq<ObjectFrame>, id: Bytes, f: ObjectFrame, now: int, qlen: int -> int)
    requires Inv(s, arrived) && Sound(s) && Remembered(s) && Ready(s.ch, id, f) && f in arrived
    ensures Remembered(Forward(s, id, f, now, qlen))
  {
    hide Inv, Sound, Ready, Enqueued, Limited, Flush, Keeps, Streams, Remembered;
    InvStreams(s, arrived);
    if !(id !in s.sockets || KeyFor(id, f) in s.ch.reset) {
      var sock := s.sockets[id];
      var a := Enqueued(s, sock, KeyFor(id, f), f);
      EnqueuedInv(s, arrived, id, f);
      EnqueuedSound(s, sock, KeyFor(id, f), f);
      EnqueuedRemembered(s, id, f);
      var b := Limited(a, id, sock);
      LimitedInv(a, arrived, id, sock);
      LimitedSound(a, id, sock);
      RememberedKept(a, b);
      FlushInv(b, arrived, sock, now, qlen(sock));
      RememberedKept(b, Flush(b, sock, now, qlen(sock)));
    }
  }

  lemma {:induction false} ForwardAllRemembered(s: State, arrived: seq<ObjectFrame>, ids: seq<Bytes>, f: ObjectFrame, now: int, qlen: int -> int)
    requires Inv(s, arrived) && Sound(s) && Remembered(s) && AllReady(s.ch, ids, f) && NoRepeats(ids) && f in arrived
    ensures Remembered(ForwardAll(s, ids, f, now, qlen))
    decreases |ids|
  {
    hide Inv, Sound, Ready, Forward, Remembered;
    if ids != [] {
      ForwardInv(s, arrived, ids[0], ids[1..], f, now, qlen);
      ForwardRemembered(s, arrived, ids[0], f, now, qlen);
      ForwardAllRemembered(Forward(s, ids[0], f, now, qlen), arrived, ids[1..], f, now, qlen);
    }
  }

  lemma OnObjectRemembered(s: State, arrived: seq<ObjectFrame>, f: ObjectFrame, now: int, qlen: int -> int)
    requires Inv(s, arrived) && Sound(s) && Remembered(s) && Arrivable(arrived, f)
    ensures Remembered(OnObject(s, f, now, qlen))
  {
    MoreArrived(s, arrived, f);
    match TrackOf(f.trackAlias)
    case None =>
    case Some(track) =>
      var ids := SubscribersOf(s.byTrack, track);
      ListedOnce(s.byTrack, track);
      forall i | 0 <= i < |ids|
        ensures Ready(s.ch, ids[i], f)
      {
        ArrivableReady(s, arrived, ids[i], f);
      }
      hide Inv, Sound, Ready, ForwardAll, Arrivable, Remembered;
      ForwardAllRemembered(s, arrived + [f], ids, f, now, qlen);
  }

  lemma {:induction false} EndForAllRemembered(s: State, arrived: seq<ObjectFrame>, ids: seq<Bytes>, track: TrackKey, status: int)
    requires Inv(s, arrived) && Remembered(s)
    ensures Remembered(EndForAll(s, ids, track, status))
    decreases |ids|
  {
    hide Inv, EndSubscriberTrack, Remembered, Keeps;
    if ids != [] {
      EndSubscriberTrackInv(s, arrived, ids[0], track, status);
      RememberedKept(s, EndSubscriberTrack(s, ids[0], track, status));
      EndForAllRemembered(EndSubscriberTrack(s, ids[0], track, status), arrived, ids[1..], track, status);
    }
  }

  lemma OnSubscribeRemembered(s: State, id: Bytes, track: TrackKey, sock: int)
    requires Remembered(s) && !Returns(s, id)
    ensures Remembered(OnSubscribe(s, id, track, sock))
  {
    hide Subscribed;
  }

  lemma OnClosedRemembered(s: State, sock: int)
    requires Remembered(s)
    ensures Remembered(OnClosed(s, sock))
  {
    var r := OnClosed(s, sock);
    forall n | n in r.ch.hist
      ensures Taken(r.ch, r.ch.hist[n].key) || r.ch.hist[n].key.subscriber !in r.sockets
    {
      assert Taken(s.ch, s.ch.hist[n].key) || s.ch.hist[n].key.subscriber !in s.sockets;
    }
  }

  /** A change that opens, resets and records nothing. */
  lemma QuietRemembered(s: State, r: State)
    requires Remembered(s) && r.ch.hist == s.ch.hist && r.ch.open == s.ch.open && r.ch.reset == s.ch.reset && r.sockets == s.sockets
    ensures Remembered(r)
  {
  }

  lemma DrainedRemembered(s: State, arrived: seq<ObjectFrame>, sock: int, now: int, queueLength: int)
    requires Inv(s, arrived) && Sound(s) && Remembered(s)
    ensures Remembered(OnQueueDrained(s, sock, now, queueLength))
  {
    hide Inv, Sound, Remembered, Flush, Keeps;
    var t := Touched(s, sock);
    var u := t.(blocked := t.blocked - {sock});
    TouchedInv(s, arrived, sock);
    BlockedInv(t, arrived, t.blocked - {sock});
    InvStreams(u, arrived);
    QuietRemembered(s, u);
    FlushInv(u, arrived, sock, now, queueLength);
    RememberedKept(u, Flush(u, sock, now, queueLength));
  }

  lemma StepRemembered(s: State, arrived: seq<ObjectFrame>, e: Event)
    requires Inv(s, arrived) && Sound(s) && Remembered(s) && Fits(s, arrived, e)
    requires e.Subscribe? ==> !Returns(s, e.id)
    ensures Remembered(Step(s, e))
  {
    hide Inv, Sound, Remembered, Returns, OnObject, EndForAll, OnSubscribe, OnClosed, OnQueueDrained, Arrivable;
    match e
    case Announce(track, timeout) => QuietRemembered(s, Step(s, e));
    case Subscribe(id, track, sock) => OnSubscribeRemembered(s, id, track, sock);
    case Object(f, now, qlen) => OnObjectRemembered(s, arrived, f, now, qlen);
    case UpstreamDone(track) => EndForAllRemembered(s, arrived, SubscribersOf(s.byTrack, track), track, PUBDONE_TRACK_ENDED);
    case QueueFull(sock) => QuietRemembered(s, Step(s, e));
    case QueueDrained(sock, now, queueLength) => DrainedRemembered(s, arrived, sock, now, queueLength);
    case Closed(sock) => OnClosedRemembered(s, sock);
  }

  lemma {:induction false} RunRemembered(s: State, arrived: seq<ObjectFrame>, es: seq<Event>)
    requires Inv(s, arrived) && Sound(s) && Remembered(s) && RunFits(s, arrived, es) && NoneReturns(s, es)
    ensures Remembered(Run(s, es))
    decreases |es|
  {
    hide Inv, Sound, Remembered, Step, Fits, Returns;
    if es != [] {
      StepInv(s, arrived, es[0]);
      StepRemembered(s, arrived, es[0]);
      RunRemembered(Step(s, es[0]), arrived + Arrivals(es[0]), es[1..]);
    }
  }

  /** While no subscriber returns after its connection closed, a subgroup of a subscriber has one stream. */
  lemma OneStreamPerSubgroup(cfg: Config, es: seq<Event>)
    requires 0 < cfg.chunk && RunFits(Initial(cfg), [], es) && NoneReturns(Initial(cfg), es)
    ensures OnePerKey(Run(Initial(cfg), es).ch)
  {
    InitialInv(cfg);
    hide Inv, Run, RunFits, NoneReturns;
    RunRemembered(Initial(cfg), [], es);
  }
}
