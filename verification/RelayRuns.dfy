/** What holds over whole runs of the relay. */
module RelayRuns {
  import opened Bytes
  import opened ByteStream
  import opened MoqFraming
  import opened SendQueue
  import opened Relay
  import opened RelayInvariant

  // ---- An object enters a queue ----

  lemma AcceptShape(c: Channel<DownSubgroup>, sock: int, k: DownSubgroup, f: ObjectFrame, timeout: int)
    requires Streams(c) && k !in c.reset
    ensures var c1 := Accept(c, sock, k, f, timeout);
      && k in c1.open && c1.queue == c.queue[sock := Insert(c.Items(sock), NewItem(k, c1.open[k], f, timeout))]
      && c1.reset == c.reset && c1.hist.Keys == c.hist.Keys + {c1.open[k]}
      && (forall id :: id in c.hist && id != c1.open[k] ==> c1.hist[id] == c.hist[id] && c1.IsOpen(id) == c.IsOpen(id))
      && c1.IsOpen(c1.open[k])
      && (if k in c.open then c1.open[k] == c.open[k] else forall id :: id in c.hist ==> id < c1.open[k])
      && c1.hist[c1.open[k]] ==
           if k in c.open then c.hist[c.open[k]].(offered := c.hist[c.open[k]].offered + [f])
           else Stream(k, sock, f.priority, [f], [], f, 0)
  {
    hide Encode, Insert;
  }

  /** Nothing offered to the subscriber from the object's subgroup is as late as the object, or of another priority. */
  ghost predicate Ready(c: Channel<DownSubgroup>, id: Bytes, f: ObjectFrame) {
    && Framable(f)
    && forall n :: n in c.hist && c.hist[n].key == KeyFor(id, f) ==> c.hist[n].priority == f.priority && Below(c.hist[n].offered, f.objectId)
  }

  lemma ReadyOfferable(s: State, id: Bytes, f: ObjectFrame)
    requires Core(s) && id in s.sockets && KeyFor(id, f) !in s.ch.reset && Ready(s.ch, id, f)
    ensures Offerable(s.ch, s.sockets[id], KeyFor(id, f), f)
  {
    hide Queues, Wire, Discipline, Framable;
    var k := KeyFor(id, f);
    if k in s.ch.open {
      assert s.ch.IsOpen(s.ch.open[k]);
    }
  }

  lemma InsertedKeys(sockets: map<Bytes, int>, sock: int, q: seq<Item<DownSubgroup>>, item: Item<DownSubgroup>)
    requires QueueRouted(sockets, sock, q) && item.key.subscriber in sockets && sockets[item.key.subscriber] == sock
    ensures QueueRouted(sockets, sock, Insert(q, item))
  {
  }

  lemma EnqueuedRouted(s: State, id: Bytes, f: ObjectFrame)
    requires Routed(s) && Streams(s.ch) && id in s.sockets && KeyFor(id, f) !in s.ch.reset
    ensures Routed(Enqueued(s, s.sockets[id], KeyFor(id, f), f))
  {
    hide Accept, Insert;
    var k, sock := KeyFor(id, f), s.sockets[id];
    var r := Enqueued(s, sock, k, f);
    AcceptShape(s.ch, sock, k, f, TimeoutOf(s, f));
    InsertedKeys(s.sockets, sock, s.Queue(sock), NewItem(k, r.ch.open[k], f, TimeoutOf(s, f)));
    forall n | r.ch.IsOpen(n)
      ensures Reaches(r, r.ch.hist[n].key, r.ch.hist[n].socket)
    {
      if n in s.ch.hist {
        assert n != r.ch.open[k] ==> s.ch.IsOpen(n);
        assert n == r.ch.open[k] ==> s.ch.IsOpen(n);
      }
    }
  }

  lemma EnqueuedCounted(s: State, sock: int, k: DownSubgroup, f: ObjectFrame)
    requires Counted(s) && Streams(s.ch) && k !in s.ch.reset
    ensures Counted(Enqueued(s, sock, k, f))
  {
    hide Accept, NewItem, SumMap;
    AcceptShape(s.ch, sock, k, f, TimeoutOf(s, f));
    hide Insert;
    SumUpdate(s.count, sock, s.Count(sock) + 1);
  }

  lemma EnqueuedOrigin(s: State, arrived: seq<ObjectFrame>, id: Bytes, f: ObjectFrame)
    requires Origin(s, arrived) && Streams(s.ch) && id in s.sockets && KeyFor(id, f) !in s.ch.reset && Ready(s.ch, id, f) && f in arrived
    ensures Origin(Enqueued(s, s.sockets[id], KeyFor(id, f), f), arrived)
  {
    EnqueuedApart(s, id, f);
    hide Accept, Framable, Insert, NewItem, Apart, CarriesOnly, Ready;
    var k, sock := KeyFor(id, f), s.sockets[id];
    var r := Enqueued(s, sock, k, f);
    AcceptShape(s.ch, sock, k, f, TimeoutOf(s, f));
    forall n | n in r.ch.hist
      ensures CarriesOnly(r.ch.hist[n], arrived)
    {
      if n == r.ch.open[k] {
        if k in s.ch.open {
          OneMoreCarried(s.ch, n, arrived, id, f);
        } else {
          FirstCarried(arrived, sock, id, f);
        }
      }
    }
  }

  lemma OneMoreCarried(c: Channel<DownSubgroup>, n: int, arrived: seq<ObjectFrame>, id: Bytes, f: ObjectFrame)
    requires n in c.hist && CarriesOnly(c.hist[n], arrived) && c.hist[n].key == KeyFor(id, f) && Ready(c, id, f) && f in arrived
    ensures CarriesOnly(c.hist[n].(offered := c.hist[n].offered + [f]), arrived)
  {
    hide Framable;
  }

  lemma FirstCarried(arrived: seq<ObjectFrame>, sock: int, id: Bytes, f: ObjectFrame)
    requires f in arrived
    ensures CarriesOnly(Stream(KeyFor(id, f), sock, f.priority, [f], [], f, 0), arrived)
  {
  }

  /** An object goes to the latest stream of its subgroup, and comes after all that went to any of them. */
  lemma EnqueuedApart(s: State, id: Bytes, f: ObjectFrame)
    requires Apart(s.ch) && Streams(s.ch) && id in s.sockets && KeyFor(id, f) !in s.ch.reset && Ready(s.ch, id, f)
    ensures Apart(Enqueued(s, s.sockets[id], KeyFor(id, f), f).ch)
  {
    hide Accept, Framable, Insert, NewItem;
    var k, c, c1 := KeyFor(id, f), s.ch, Enqueued(s, s.sockets[id], KeyFor(id, f), f).ch;
    AcceptShape(c, s.sockets[id], k, f, TimeoutOf(s, f));
    forall b
      ensures !Earlier(c1, c1.open[k], b)
    {
      if k in c.open {
        OpenIsLatest(c, c.open[k], b);
      }
    }
    forall a, b | Earlier(c1, a, b) && a != c1.open[k]
      ensures !c1.IsOpen(a) && AllBelow(c1.hist[a].offered, c1.hist[b].offered)
    {
      if b in c.hist {
        assert Earlier(c, a, b);
      }
    }
  }

  lemma OpenIsLatest(c: Channel<DownSubgroup>, a: int, b: int)
    requires Apart(c) && c.IsOpen(a)
    ensures !Earlier(c, a, b)
  {
  }

  lemma EnqueuedInv(s: State, arrived: seq<ObjectFrame>, id: Bytes, f: ObjectFrame)
    requires Inv(s, arrived) && id in s.sockets && KeyFor(id, f) !in s.ch.reset && Ready(s.ch, id, f) && f in arrived
    ensures Inv(Enqueued(s, s.sockets[id], KeyFor(id, f), f), arrived)
  {
    ReadyOfferable(s, id, f);
    hide Routed, Counted, Origin, Listed, Accept, Ready, Offerable, Queues, Wire, Discipline, Streams;
    AcceptValid(s.ch, s.sockets[id], KeyFor(id, f), f, TimeoutOf(s, f));
    EnqueuedCounted(s, s.sockets[id], KeyFor(id, f), f);
    EnqueuedRouted(s, id, f);
    EnqueuedOrigin(s, arrived, id, f);
  }

  /** Forwarding to one subscriber leaves the streams of the others alone. */
  lemma ReadyAfterEnqueue(s: State, id: Bytes, other: Bytes, f: ObjectFrame)
    requires Streams(s.ch) && id in s.sockets && KeyFor(id, f) !in s.ch.reset && Ready(s.ch, other, f) && other != id
    ensures Ready(Enqueued(s, s.sockets[id], KeyFor(id, f), f).ch, other, f)
  {
    hide Accept, Framable;
    AcceptShape(s.ch, s.sockets[id], KeyFor(id, f), f, TimeoutOf(s, f));
  }

  lemma ReadyKept(c: Channel<DownSubgroup>, d: Channel<DownSubgroup>, id: Bytes, f: ObjectFrame)
    requires Ready(c, id, f) && Keeps(c, d)
    ensures Ready(d, id, f)
  {
    forall n | n in d.hist && d.hist[n].key == KeyFor(id, f)
      ensures d.hist[n].priority == f.priority && Below(d.hist[n].offered, f.objectId)
    {
      assert SameOwner(c.hist[n], d.hist[n]);
    }
  }

  ghost predicate AllReady(c: Channel<DownSubgroup>, ids: seq<Bytes>, f: ObjectFrame) {
    forall i :: 0 <= i < |ids| ==> Ready(c, ids[i], f)
  }

  lemma LimitedInv(s: State, arrived: seq<ObjectFrame>, id: Bytes, sock: int)
    requires Inv(s, arrived)
    ensures var r := Limited(s, id, sock);
      Inv(r, arrived) && Keeps(s.ch, r.ch) && r.sockets == s.sockets
  {
    hide Inv, Keeps, EndTracks;
    KeepsReflexive(s.ch);
    EndTracksInv(s, arrived, id, TracksOf(s.byTrack, id), PUBDONE_TOO_FAR_BEHIND);
  }

  lemma FlushInv(s: State, arrived: seq<ObjectFrame>, sock: int, now: int, qlen: int)
    requires Inv(s, arrived) && Sound(s)
    ensures var r := Flush(s, sock, now, qlen);
      Inv(r, arrived) && Keeps(s.ch, r.ch) && r.sockets == s.sockets
  {
    hide Core, Origin, Listed, Keeps, Flush, Sound;
    FlushCore(s, sock, now, qlen);
    KeepsOrigin(s, Flush(s, sock, now, qlen), arrived);
  }

  lemma InvStreams(s: State, arrived: seq<ObjectFrame>)
    requires Inv(s, arrived)
    ensures Streams(s.ch) && Sound(s)
  {
    CoreSound(s);
  }

  lemma ForwardInv(s: State, arrived: seq<ObjectFrame>, id: Bytes, rest: seq<Bytes>, f: ObjectFrame, now: int, qlen: int -> int)
    requires Inv(s, arrived) && Sound(s) && Ready(s.ch, id, f) && AllReady(s.ch, rest, f) && id !in rest && f in arrived
    ensures var r := Forward(s, id, f, now, qlen);
      Inv(r, arrived) && AllReady(r.ch, rest, f)
  {
    hide Inv, Sound, Ready, Enqueued, Limited, Flush, Keeps, Streams;
    InvStreams(s, arrived);
    if !(id !in s.sockets || KeyFor(id, f) in s.ch.reset) {
      var sock := s.sockets[id];
      var a := Enqueued(s, sock, KeyFor(id, f), f);
      EnqueuedInv(s, arrived, id, f);
      EnqueuedSound(s, sock, KeyFor(id, f), f);
      var b := Limited(a, id, sock);
      LimitedInv(a, arrived, id, sock);
      LimitedSound(a, id, sock);
      FlushInv(b, arrived, sock, now, qlen(sock));
      var r := Flush(b, sock, now, qlen(sock));
      forall i | 0 <= i < |rest|
        ensures Ready(r.ch, rest[i], f)
      {
        ReadyAfterEnqueue(s, id, rest[i], f);
        ReadyKept(a.ch, b.ch, rest[i], f);
        ReadyKept(b.ch, r.ch, rest[i], f);
      }
    }
  }

  lemma {:induction false} ForwardAllInv(s: State, arrived: seq<ObjectFrame>, ids: seq<Bytes>, f: ObjectFrame, now: int, qlen: int -> int)
    requires Inv(s, arrived) && Sound(s) && AllReady(s.ch, ids, f) && NoRepeats(ids) && f in arrived
    ensures Inv(ForwardAll(s, ids, f, now, qlen), arrived)
    decreases |ids|
  {
    hide Inv, Sound, Ready, Forward;
    if ids != [] {
      ForwardInv(s, arrived, ids[0], ids[1..], f, now, qlen);
      ForwardAllInv(Forward(s, ids[0], f, now, qlen), arrived, ids[1..], f, now, qlen);
    }
  }

  // ---- Arrivals ----

  predicate SameSubgroup(g: ObjectFrame, f: ObjectFrame) {
    g.trackAlias == f.trackAlias && g.groupId == f.groupId && g.subgroupId == f.subgroupId
  }

  /** What the relay can count on: each subgroup's objects come in ascending object id, with one priority. */
  ghost predicate Arrivable(arrived: seq<ObjectFrame>, f: ObjectFrame) {
    && Framable(f)
    && forall g :: g in arrived && SameSubgroup(g, f) ==> g.objectId < f.objectId && g.priority == f.priority
  }

  lemma ArrivableReady(s: State, arrived: seq<ObjectFrame>, id: Bytes, f: ObjectFrame)
    requires Inv(s, arrived) && Arrivable(arrived, f)
    ensures Ready(s.ch, id, f)
  {
    hide Routed, Counted, Listed, Queues, Discipline, Framable, StreamOk, Written;
    forall n | n in s.ch.hist && s.ch.hist[n].key == KeyFor(id, f)
      ensures s.ch.hist[n].priority == f.priority && Below(s.ch.hist[n].offered, f.objectId)
    {
      assert CarriesOnly(s.ch.hist[n], arrived);
      assert s.ch.hist[n].offered[0] in s.ch.hist[n].offered;
    }
  }

  lemma MoreArrived(s: State, arrived: seq<ObjectFrame>, f: ObjectFrame)
    requires Inv(s, arrived)
    ensures Inv(s, arrived + [f])
  {
    hide Core;
    forall id | id in s.ch.hist
      ensures CarriesOnly(s.ch.hist[id], arrived + [f])
    {
      assert CarriesOnly(s.ch.hist[id], arrived);
    }
  }

  lemma {:induction false} ListedOnce(entries: seq<Subscribers>, track: TrackKey)
    requires Listed(entries)
    ensures NoRepeats(SubscribersOf(entries, track))
  {
    if entries != [] && entries[0].track != track {
      ListedOnce(entries[1..], track);
    }
  }

  lemma OnObjectInv(s: State, arrived: seq<ObjectFrame>, f: ObjectFrame, now: int, qlen: int -> int)
    requires Inv(s, arrived) && Sound(s) && Arrivable(arrived, f)
    ensures Inv(OnObject(s, f, now, qlen), arrived + [f])
  {
    MoreArrived(s, arrived, f);
    match TrackOf(f.trackAlias)
    case None =>
    case Some(track) =>
      var ids := SubscribersOf(s.byTrack, track);
      ListedOnce(s.byTrack, track);
      forall i | 0 <= i < |ids|
        ensures Ready(s.ch, ids[i], f)
      {
        ArrivableReady(s, arrived, ids[i], f);
      }
      hide Inv, Sound, Ready, ForwardAll, Arrivable;
      ForwardAllInv(s, arrived + [f], ids, f, now, qlen);
  }

  // ---- Connections ----

  lemma {:induction false} SubscribedListed(entries: seq<Subscribers>, track: TrackKey, id: Bytes)
    requires Listed(entries) && id !in SubscribersOf(entries, track)
    ensures Listed(Subscribed(entries, track, id))
    ensures forall e :: e in Subscribed(entries, track, id) ==> e.track == track || exists d :: d in entries && d.track == e.track
  {
    if entries != [] {
      if entries[0].track == track {
        assert NoRepeats(entries[0].ids + [id]);
      } else {
        SubscribedListed(entries[1..], track, id);
        var rest := Subscribed(entries[1..], track, id);
        assert forall d :: d in entries[1..] ==> d in entries;
        hide NoRepeats;
        forall j | 0 <= j < |rest|
          ensures rest[j].track != entries[0].track
        {
          assert rest[j] in rest;
        }
      }
    }
  }

  lemma OnSubscribeInv(s: State, arrived: seq<ObjectFrame>, id: Bytes, track: TrackKey, sock: int)
    requires Inv(s, arrived)
    requires (id in s.sockets ==> s.sockets[id] == sock) && id !in SubscribersOf(s.byTrack, track)
    ensures Inv(OnSubscribe(s, id, track, sock), arrived)
  {
    SubscribedListed(s.byTrack, track, id);
    hide SendQueue.Valid, Listed, Subscribed;
    var r := OnSubscribe(s, id, track, sock);
    forall n | n in r.ch.queue
      ensures QueueRouted(r.sockets, n, r.ch.queue[n])
    {
      assert QueueRouted(s.sockets, n, s.ch.queue[n]);
    }
    forall n | r.ch.IsOpen(n)
      ensures Reaches(r, r.ch.hist[n].key, r.ch.hist[n].socket)
    {
      assert Reaches(s, s.ch.hist[n].key, s.ch.hist[n].socket);
    }
  }

  lemma OnClosedOpen(s: State, sock: int, n: int)
    requires Routed(s)
    ensures var r := OnClosed(s, sock);
      r.ch.IsOpen(n) <==> s.ch.IsOpen(n) && s.ch.hist[n].socket != sock
  {
    if s.ch.IsOpen(n) {
      assert Reaches(s, s.ch.hist[n].key, s.ch.hist[n].socket);
    }
  }

  lemma OnClosedQueues(s: State, sock: int)
    requires Routed(s) && Queues(s.ch)
    ensures Queues(OnClosed(s, sock).ch)
  {
    hide Encode, Ordered;
    var r := OnClosed(s, sock);
    forall n, i | n in r.ch.queue && 0 <= i < |r.ch.queue[n]|
      ensures ItemOk(r.ch, n, r.ch.queue[n][i])
    {
      var item := s.ch.queue[n][i];
      assert ItemOk(s.ch, n, item);
      assert QueueRouted(s.sockets, n, s.ch.queue[n]);
      OnClosedOpen(s, sock, item.stream);
    }
  }

  lemma OnClosedWire(s: State, sock: int)
    requires Routed(s) && Wire(s.ch)
    ensures Wire(OnClosed(s, sock).ch)
  {
    hide Encode, Written, StreamOk, StreamBytes;
    var r := OnClosed(s, sock);
    forall n | n in r.ch.hist
      ensures PartialBuffered(r.ch, n)
    {
      OnClosedOpen(s, sock, n);
      assert PartialBuffered(s.ch, n);
      var t := s.ch.hist[n].socket;
      assert t != sock ==> r.ch.Items(t) == s.ch.Items(t);
      assert forall item :: PartialItem(r.ch, n, item) == PartialItem(s.ch, n, item);
    }
  }

  lemma OnClosedRest(s: State, sock: int)
    requires Routed(s) && Streams(s.ch) && Discipline(s.ch) && Counted(s)
    ensures var r := OnClosed(s, sock);
      Streams(r.ch) && Discipline(r.ch) && Counted(r)
  {
    var r := OnClosed(s, sock);
    forall n
      ensures r.ch.IsOpen(n) ==> s.ch.IsOpen(n)
    {
      OnClosedOpen(s, sock, n);
    }
    if sock in s.count {
      SumWithout(s.count, sock);
    } else {
      assert s.count - {sock} == s.count;
    }
  }

  lemma OnClosedRouted(s: State, sock: int)
    requires Routed(s)
    ensures Routed(OnClosed(s, sock)) && Follows(s.ch, OnClosed(s, sock).ch)
  {
    var r := OnClosed(s, sock);
    forall n
      ensures r.ch.IsOpen(n) <==> s.ch.IsOpen(n) && s.ch.hist[n].socket != sock
    {
      OnClosedOpen(s, sock, n);
    }
    forall n | r.ch.IsOpen(n)
      ensures Reaches(r, r.ch.hist[n].key, r.ch.hist[n].socket)
    {
      assert Reaches(s, s.ch.hist[n].key, s.ch.hist[n].socket);
    }
    forall n | n in r.ch.queue
      ensures QueueRouted(r.sockets, n, r.ch.queue[n])
    {
      assert QueueRouted(s.sockets, n, s.ch.queue[n]);
    }
  }

  lemma OnClosedInv(s: State, arrived: seq<ObjectFrame>, sock: int)
    requires Inv(s, arrived)
    ensures Inv(OnClosed(s, sock), arrived)
  {
    OnClosedQueues(s, sock);
    OnClosedWire(s, sock);
    OnClosedRest(s, sock);
    OnClosedRouted(s, sock);
    hide Queues, Wire, Streams, Discipline, Counted, Routed, Origin, Follows, Listed;
    FollowsOrigin(s, OnClosed(s, sock), arrived);
  }

  // ---- Runs ----

  /** One SUBSCRIBE per subscriber and track, over one connection; objects come in the order of their subgroup. */
  ghost predicate Fits(s: State, arrived: seq<ObjectFrame>, e: Event) {
    match e
    case Subscribe(id, track, sock) => (id in s.sockets ==> s.sockets[id] == sock) && id !in SubscribersOf(s.byTrack, track)
    case Object(f, _, _) => Arrivable(arrived, f)
    case _ => true
  }

  function Arrivals(e: Event): seq<ObjectFrame> {
    if e.Object? then [e.frame] else []
  }

  function ArrivedIn(es: seq<Event>): seq<ObjectFrame> {
    if es == [] then [] else Arrivals(es[0]) + ArrivedIn(es[1..])
  }

  ghost predicate RunFits(s: State, arrived: seq<ObjectFrame>, es: seq<Event>)
    requires Sound(s)
    decreases |es|
  {
    es == [] || (Fits(s, arrived, es[0]) && RunFits(Step(s, es[0]), arrived + Arrivals(es[0]), es[1..]))
  }

  lemma StepInv(s: State, arrived: seq<ObjectFrame>, e: Event)
    requires Inv(s, arrived) && Sound(s) && Fits(s, arrived, e)
    ensures Inv(Step(s, e), arrived + Arrivals(e))
  {
    hide Core, Origin, Listed, Arrivable, OnObject, OnSubscribe, OnClosed, Flush, EndForAll, Touched;
    assert arrived + [] == arrived;
    match e
    case Announce(track, timeout) =>
      AnnounceInv(s, arrived, track, timeout);
    case Subscribe(id, track, sock) =>
      OnSubscribeInv(s, arrived, id, track, sock);
    case Object(f, now, qlen) =>
      OnObjectInv(s, arrived, f, now, qlen);
    case UpstreamDone(track) =>
      EndForAllInv(s, arrived, SubscribersOf(s.byTrack, track), track, PUBDONE_TRACK_ENDED);
    case QueueFull(sock) =>
      TouchedInv(s, arrived, sock);
      BlockedInv(Touched(s, sock), arrived, Touched(s, sock).blocked + {sock});
    case QueueDrained(sock, now, queueLength) =>
      TouchedInv(s, arrived, sock);
      var t := Touched(s, sock);
      BlockedInv(t, arrived, t.blocked - {sock});
      InvStreams(t.(blocked := t.blocked - {sock}), arrived);
      FlushInv(t.(blocked := t.blocked - {sock}), arrived, sock, now, queueLength);
    case Closed(sock) =>
      OnClosedInv(s, arrived, sock);
  }

  lemma AnnounceInv(s: State, arrived: seq<ObjectFrame>, track: TrackKey, timeout: int)
    requires Inv(s, arrived)
    ensures Inv(s.(timeouts := s.timeouts[track := timeout]), arrived)
  {
  }

  lemma TouchedInv(s: State, arrived: seq<ObjectFrame>, sock: int)
    requires Inv(s, arrived)
    ensures Inv(Touched(s, sock), arrived)
  {
    hide Core, Listed, CarriesOnly;
    if sock !in s.ch.queue {
      TouchedCore(s, sock);
      var r := Touched(s, sock);
      assert r.ch.hist == s.ch.hist && r.byTrack == s.byTrack;
    }
  }

  lemma TouchedCore(s: State, sock: int)
    requires Core(s) && sock !in s.ch.queue
    ensures Core(Touched(s, sock))
  {
    TouchedValid(s, sock);
    TouchedCounted(s, sock);
    TouchedRouted(s, sock);
    hide SendQueue.Valid, Counted, Routed;
  }

  lemma TouchedCounted(s: State, sock: int)
    requires Counted(s) && sock !in s.ch.queue
    ensures Counted(Touched(s, sock))
  {
    SumUpdate(s.count, sock, 0);
    hide SumMap;
  }

  lemma TouchedRouted(s: State, sock: int)
    requires Routed(s) && sock !in s.ch.queue
    ensures Routed(Touched(s, sock))
  {
    var r := Touched(s, sock);
    assert forall n :: r.ch.IsOpen(n) == s.ch.IsOpen(n);
  }

  lemma TouchedValid(s: State, sock: int)
    requires SendQueue.Valid(s.ch) && sock !in s.ch.queue
    ensures SendQueue.Valid(Touched(s, sock).ch)
  {
    hide Encode, Written, StreamOk, StreamBytes, Ordered;
    var r := Touched(s, sock);
    assert forall n :: r.ch.IsOpen(n) == s.ch.IsOpen(n);
    forall n, i | n in r.ch.queue && 0 <= i < |r.ch.queue[n]|
      ensures ItemOk(r.ch, n, r.ch.queue[n][i])
    {
      assert ItemOk(s.ch, n, s.ch.queue[n][i]);
    }
    EmptyOrdered();
    forall n | n in r.ch.hist
      ensures PartialBuffered(r.ch, n)
    {
      assert PartialBuffered(s.ch, n);
      assert r.ch.Items(s.ch.hist[n].socket) == s.ch.Items(s.ch.hist[n].socket);
      assert forall item :: PartialItem(r.ch, n, item) == PartialItem(s.ch, n, item);
    }
  }

  lemma EmptyOrdered()
    ensures Ordered<DownSubgroup>([])
  {
  }

  lemma BlockedInv(s: State, arrived: seq<ObjectFrame>, blocked: set<int>)
    requires Inv(s, arrived)
    ensures Inv(s.(blocked := blocked), arrived)
  {
  }

  lemma {:induction false} RunInv(s: State, arrived: seq<ObjectFrame>, es: seq<Event>)
    requires Inv(s, arrived) && Sound(s) && RunFits(s, arrived, es)
    ensures Inv(Run(s, es), arrived + ArrivedIn(es))
    decreases |es|
  {
    hide Inv, Sound, Step, Fits;
    if es == [] {
      assert arrived + [] == arrived;
    } else {
      StepInv(s, arrived, es[0]);
      RunInv(Step(s, es[0]), arrived + Arrivals(es[0]), es[1..]);
      assert arrived + Arrivals(es[0]) + ArrivedIn(es[1..]) == arrived + ArrivedIn(es);
    }
  }

  // ---- What the runs show ----

  /** In every run the queue depth is the sum of the per-connection counts, and those are the queue lengths. */
  lemma ForwardingCounters(cfg: Config, es: seq<Event>)
    requires 0 < cfg.chunk && RunFits(Initial(cfg), [], es)
    ensures var r := Run(Initial(cfg), es);
      && (forall sock :: r.Count(sock) == |r.Queue(sock)|)
      && r.pending == SumMap(r.count)
  {
    InitialInv(cfg);
    RunInv(Initial(cfg), [], es);
    assert Counted(Run(Initial(cfg), es));
  }

  /** Of the queued objects of one priority only the first can be partly written. */
  lemma OnlyFrontPartlyWritten(cfg: Config, es: seq<Event>, sock: int, i: nat, j: nat)
    requires 0 < cfg.chunk && RunFits(Initial(cfg), [], es)
    requires i < j < |Run(Initial(cfg), es).Queue(sock)|
    ensures var q := Run(Initial(cfg), es).Queue(sock);
      q[i].priority <= q[j].priority && (q[i].priority == q[j].priority ==> q[j].sentOffset == 0)
  {
    InitialInv(cfg);
    RunInv(Initial(cfg), [], es);
    var r := Run(Initial(cfg), es);
    hide Encode, Wire, Discipline, Streams;
    assert Ordered(r.ch.queue[sock]);
    assert InOrder(r.Queue(sock)[i], r.Queue(sock)[j]);
  }

  /** What is left of a queue when the objects of a track go. */
  function OtherTracks(q: seq<Item<DownSubgroup>>, alias: Bytes): (r: seq<Item<DownSubgroup>>)
    ensures forall item :: item in r <==> item in q && item.key.alias != alias
  {
    if q == [] then [] else (if q[0].key.alias == alias then [] else [q[0]]) + OtherTracks(q[1..], alias)
  }

  /** One reset for every partly written object of the track. */
  function ResetsFor(q: seq<Item<DownSubgroup>>, alias: Bytes): seq<Command> {
    if q == [] then []
    else (if q[0].key.alias == alias && q[0].sentOffset > 0 then [Reset(q[0].stream, MOQ_ERR_SEND_BUFFER_OVERFLOW)] else []) + ResetsFor(q[1..], alias)
  }

  function CutKeys(q: seq<Item<DownSubgroup>>, alias: Bytes): (r: set<DownSubgroup>)
    ensures forall item :: item in q && item.key.alias == alias && item.sentOffset > 0 ==> item.key in r
  {
    set i | 0 <= i < |q| && q[i].key.alias == alias && q[i].sentOffset > 0 :: q[i].key
  }

  lemma CutKeysStep(q: seq<Item<DownSubgroup>>, alias: Bytes)
    requires q != []
    ensures CutKeys(q, alias) == (if q[0].key.alias == alias && q[0].sentOffset > 0 then {q[0].key} else {}) + CutKeys(q[1..], alias)
  {
    var rest := CutKeys(q[1..], alias);
    forall k | k in CutKeys(q, alias)
      ensures k in rest || (q[0].key.alias == alias && q[0].sentOffset > 0 && k == q[0].key)
    {
      var i :| 0 <= i < |q| && q[i].key.alias == alias && q[i].sentOffset > 0 && q[i].key == k;
      if i > 0 {
        assert q[1..][i - 1] == q[i];
      }
    }
    forall k | k in rest
      ensures k in CutKeys(q, alias)
    {
      var i :| 0 <= i < |q[1..]| && q[1..][i].key.alias == alias && q[1..][i].sentOffset > 0 && q[1..][i].key == k;
      assert q[i + 1].key == k;
    }
  }

  /** The effect of giving up the objects of a track from position `i` on. */
  ghost predicate Swept(s: State, r: State, sock: int, alias: Bytes, i: nat)
    requires i <= |s.Queue(sock)|
  {
    var q := s.Queue(sock);
    && r.Queue(sock) == q[..i] + OtherTracks(q[i..], alias)
    && (forall n :: n != sock ==> r.Queue(n) == s.Queue(n))
    && r.ch.wire == s.ch.wire + ResetsFor(q[i..], alias)
    && r.ch.open == s.ch.open - CutKeys(q[i..], alias)
    && r.ch.reset.Keys == s.ch.reset.Keys + CutKeys(q[i..], alias)
  }

  lemma GiveUpExact(s: State, sock: int, i: nat, code: int)
    requires i < |s.Queue(sock)|
    ensures var r, item := GiveUp(s, sock, i, code), s.Queue(sock)[i];
      && r.Queue(sock) == Remove(s.Queue(sock), i)
      && (forall n :: n != sock ==> r.Queue(n) == s.Queue(n))
      && r.ch.wire == s.ch.wire + (if item.sentOffset > 0 then [Reset(item.stream, code)] else [])
      && r.ch.open == s.ch.open - (if item.sentOffset > 0 then {item.key} else {})
      && r.ch.reset.Keys == s.ch.reset.Keys + (if item.sentOffset > 0 then {item.key} else {})
  {
    hide Remove;
  }

  /** Resets and keys from position `i` on, when the object there goes or stays. */
  lemma SweptStep(q: seq<Item<DownSubgroup>>, alias: Bytes, i: nat)
    requires i < |q|
    ensures var goes, cut := q[i].key.alias == alias, q[i].key.alias == alias && q[i].sentOffset > 0;
      && ResetsFor(q[i..], alias) == (if cut then [Reset(q[i].stream, MOQ_ERR_SEND_BUFFER_OVERFLOW)] else []) + ResetsFor(q[i + 1..], alias)
      && CutKeys(q[i..], alias) == (if cut then {q[i].key} else {}) + CutKeys(q[i + 1..], alias)
      && (if goes then
            Remove(q, i)[..i] == q[..i] && Remove(q, i)[i..] == q[i + 1..] && OtherTracks(q[i..], alias) == OtherTracks(q[i + 1..], alias)
          else q[..i] + OtherTracks(q[i..], alias) == q[..i + 1] + OtherTracks(q[i + 1..], alias))
  {
    assert q[i..][1..] == q[i + 1..] && q[i..][0] == q[i];
    CutKeysStep(q[i..], alias);
    ResetsStep(q[i..], alias);
    OtherTracksStep(q[i..], alias);
    hide *;
    if q[i].key.alias == alias {
      RemovedAround(q, i);
    } else {
      KeptAround(q, i, OtherTracks(q[i + 1..], alias));
    }
  }

  lemma ResetsStep(q: seq<Item<DownSubgroup>>, alias: Bytes)
    requires q != []
    ensures ResetsFor(q, alias) == (if q[0].key.alias == alias && q[0].sentOffset > 0 then [Reset(q[0].stream, MOQ_ERR_SEND_BUFFER_OVERFLOW)] else []) + ResetsFor(q[1..], alias)
  {
  }

  lemma OtherTracksStep(q: seq<Item<DownSubgroup>>, alias: Bytes)
    requires q != []
    ensures OtherTracks(q, alias) == if q[0].key.alias == alias then OtherTracks(q[1..], alias) else [q[0]] + OtherTracks(q[1..], alias)
  {
    assert [] + OtherTracks(q[1..], alias) == OtherTracks(q[1..], alias);
  }

  lemma RemovedAround<T>(q: seq<T>, i: nat)
    requires i < |q|
    ensures Remove(q, i)[..i] == q[..i] && Remove(q, i)[i..] == q[i + 1..]
  {
  }

  lemma KeptAround<T>(q: seq<T>, i: nat, rest: seq<T>)
    requires i < |q|
    ensures q[..i] + ([q[i]] + rest) == q[..i + 1] + rest
  {
    assert q[..i + 1] == q[..i] + [q[i]];
  }

  lemma {:induction false} SweepTrackExact(s: State, sock: int, alias: Bytes, i: nat)
    requires i <= |s.Queue(sock)|
    ensures Swept(s, SweepTrack(s, sock, alias, i), sock, alias, i)
    decreases |s.Queue(sock)| - i
  {
    hide GiveUp, CutKeys, ResetsFor, OtherTracks, Remove, Swept;
    var q := s.Queue(sock);
    if i == |q| {
      NothingSwept(s, sock, alias);
    } else {
      SweptStep(q, alias, i);
      if q[i].key.alias == alias {
        var t := GiveUp(s, sock, i, MOQ_ERR_SEND_BUFFER_OVERFLOW);
        GiveUpExact(s, sock, i, MOQ_ERR_SEND_BUFFER_OVERFLOW);
        SweepTrackExact(t, sock, alias, i);
        SweptAfterGiveUp(s, t, SweepTrack(t, sock, alias, i), sock, alias, i);
      } else {
        SweepTrackExact(s, sock, alias, i + 1);
        SweptOneKept(s, SweepTrack(s, sock, alias, i + 1), sock, alias, i);
      }
    }
  }

  lemma NothingSwept(s: State, sock: int, alias: Bytes)
    ensures Swept(s, s, sock, alias, |s.Queue(sock)|)
  {
    var q := s.Queue(sock);
    assert q[|q|..] == [] && q[..|q|] == q;
    assert q + [] == q && s.ch.wire + [] == s.ch.wire;
    assert CutKeys([], alias) == {};
    assert s.ch.open - {} == s.ch.open;
  }

  lemma SweptOneKept(s: State, r: State, sock: int, alias: Bytes, i: nat)
    requires i < |s.Queue(sock)| && s.Queue(sock)[i].key.alias != alias && Swept(s, r, sock, alias, i + 1)
    ensures Swept(s, r, sock, alias, i)
  {
    SweptStep(s.Queue(sock), alias, i);
    hide CutKeys, ResetsFor, OtherTracks;
    assert [] + ResetsFor(s.Queue(sock)[i + 1..], alias) == ResetsFor(s.Queue(sock)[i + 1..], alias);
    assert {} + CutKeys(s.Queue(sock)[i + 1..], alias) == CutKeys(s.Queue(sock)[i + 1..], alias);
  }

  lemma SweptAfterGiveUp(s: State, t: State, r: State, sock: int, alias: Bytes, i: nat)
    requires i < |s.Queue(sock)| && s.Queue(sock)[i].key.alias == alias
    requires t.Queue(sock) == Remove(s.Queue(sock), i) && forall n :: n != sock ==> t.Queue(n) == s.Queue(n)
    requires var item := s.Queue(sock)[i];
      && t.ch.wire == s.ch.wire + (if item.sentOffset > 0 then [Reset(item.stream, MOQ_ERR_SEND_BUFFER_OVERFLOW)] else [])
      && t.ch.open == s.ch.open - (if item.sentOffset > 0 then {item.key} else {})
      && t.ch.reset.Keys == s.ch.reset.Keys + (if item.sentOffset > 0 then {item.key} else {})
    requires Swept(t, r, sock, alias, i)
    ensures Swept(s, r, sock, alias, i)
  {
    hide CutKeys, ResetsFor, OtherTracks, Remove;
    var q := s.Queue(sock);
    SweptStep(q, alias, i);
    var one := if q[i].sentOffset > 0 then [Reset(q[i].stream, MOQ_ERR_SEND_BUFFER_OVERFLOW)] else [];
    var keys := if q[i].sentOffset > 0 then {q[i].key} else {};
    Appended(s.ch.wire, one, ResetsFor(q[i + 1..], alias));
    Removed(s.ch.open, keys, CutKeys(q[i + 1..], alias));
    Joined(s.ch.reset.Keys, keys, CutKeys(q[i + 1..], alias));
  }

  lemma Appended(a: seq<Command>, b: seq<Command>, c: seq<Command>)
    ensures a + b + c == a + (b + c)
  {
  }

  lemma Removed(m: map<DownSubgroup, int>, a: set<DownSubgroup>, b: set<DownSubgroup>)
    ensures m - a - b == m - (a + b)
  {
  }

  lemma Joined(k: set<DownSubgroup>, a: set<DownSubgroup>, b: set<DownSubgroup>)
    ensures k + a + b == k + (a + b)
  {
  }

  /**
   * Ending a subscription: of the subscriber's queue exactly the track's objects go; every partly written
   * one has its stream reset, before the PUBLISH_DONE and in the order of the queue; the streams that stay
   * open are the ones none of whose objects was partly written.
   */
  lemma EndSubscriberTrackExact(s: State, id: Bytes, track: TrackKey, status: int)
    requires id in s.sockets
    ensures var r, sock := EndSubscriberTrack(s, id, track, status), s.sockets[id];
      var q, alias := s.Queue(sock), track.Alias();
      && r.Queue(sock) == OtherTracks(q, alias)
      && (forall item :: item in r.Queue(sock) ==> item.key.alias != alias)
      && (forall n :: n != sock ==> r.Queue(n) == s.Queue(n))
      && r.ch.wire == s.ch.wire + ResetsFor(q, alias) + [PublishDone(sock, -1, alias, status)]
      && (forall item :: item in q && item.key.alias == alias && item.sentOffset > 0 ==>
           item.key in r.ch.reset && Reset(item.stream, MOQ_ERR_SEND_BUFFER_OVERFLOW) in r.ch.wire[|s.ch.wire|..|r.ch.wire| - 1])
      && r.ch.open == s.ch.open - CutKeys(q, alias)
  {
    var sock, alias := s.sockets[id], track.Alias();
    var q := s.Queue(sock);
    SweepTrackExact(s, sock, alias, 0);
    assert q[..0] == [] && q[0..] == q;
    hide SweepTrack, CutKeys;
    var r := EndSubscriberTrack(s, id, track, status);
    assert r.Queue(sock) == [] + OtherTracks(q, alias) == OtherTracks(q, alias);
    assert r.ch.wire[|s.ch.wire|..|r.ch.wire| - 1] == ResetsFor(q, alias);
    forall item | item in q && item.key.alias == alias && item.sentOffset > 0
      ensures Reset(item.stream, MOQ_ERR_SEND_BUFFER_OVERFLOW) in ResetsFor(q, alias)
    {
      ResetsCover(q, alias, item);
    }
  }

  lemma {:induction false} ResetsCover(q: seq<Item<DownSubgroup>>, alias: Bytes, item: Item<DownSubgroup>)
    requires item in q && item.key.alias == alias && item.sentOffset > 0
    ensures Reset(item.stream, MOQ_ERR_SEND_BUFFER_OVERFLOW) in ResetsFor(q, alias)
  {
    if q[0] != item {
      ResetsCover(q[1..], alias, item);
    }
  }

  /** A stream of the subscription: of that subscriber, for that track. */
  predicate OfSubscription(k: DownSubgroup, id: Bytes, track: TrackKey) {
    k.subscriber == id && k.alias == track.Alias()
  }

  /** Some object of the subgroup waits in the queue, partly written. */
  ghost predicate PartlyWritten(q: seq<Item<DownSubgroup>>, k: DownSubgroup) {
    exists i :: 0 <= i < |q| && q[i].key == k && q[i].sentOffset > 0
  }

  /**
   * No stream of a subscription is open once its PUBLISH_DONE is out exactly when each of those that were
   * open had a partly written object in the queue: the streams between two objects are never closed.
   */
  lemma AllStreamsClosedIff(s: State, id: Bytes, track: TrackKey, status: int)
    requires id in s.sockets
    ensures var r, q := EndSubscriberTrack(s, id, track, status), s.Queue(s.sockets[id]);
      (forall k :: k in r.ch.open ==> !OfSubscription(k, id, track))
      <==> (forall k :: k in s.ch.open && OfSubscription(k, id, track) ==> PartlyWritten(q, k))
  {
    var r, q := EndSubscriberTrack(s, id, track, status), s.Queue(s.sockets[id]);
    EndSubscriberTrackExact(s, id, track, status);
    hide EndSubscriberTrack;
    forall k | OfSubscription(k, id, track)
      ensures k in CutKeys(q, track.Alias()) <==> PartlyWritten(q, k)
    {
    }
    hide CutKeys, PartlyWritten;
    assert forall k :: k in r.ch.open <==> k in s.ch.open && k !in CutKeys(q, track.Alias());
  }

  /**
   * A stream left open: one subscriber, one object written whole, and then the end of the track. The last
   * command is its PUBLISH_DONE, no command resets the object's stream, and the relay still has it open.
   */
  lemma StreamLeftOpen() returns (cfg: Config, es: seq<Event>)
    ensures 0 < cfg.chunk && RunFits(Initial(cfg), [], es)
    ensures var r, track := Run(Initial(cfg), es), TrackKey([], []);
      && |r.ch.wire| == 2 && r.ch.wire[0].Send? && r.ch.wire[1] == PublishDone(1, -1, track.Alias(), PUBDONE_TRACK_ENDED)
      && exists k :: k in r.ch.open && OfSubscription(k, [], track) && r.ch.open[k] == r.ch.wire[0].stream
  {
    hide *;
    var track, f := TrackKey([], []), ObjectFrame(0, 0, 0, 0, 0, 0, 0, [SLASH]);
    cfg := Config(1, 1000, 1);
    es := [Subscribe([], track, 1), Object(f, 0, _ => 0), UpstreamDone(track)];
    var s1 := OneSubscribed(cfg, track);
    var s2, cmd := OneObjectOut(s1, f, track, es[1].qlen);
    var s3 := OneTrackEnded(s2, f, track, cmd);
    ShortObjectFits(s1, f, es[1].qlen);
    OwnSubgroup(f, track);
    DoneFits(s2, f, track);
    RunOfThree(Initial(cfg), s1, s2, s3, es);
  }

  lemma OwnSubgroup(f: ObjectFrame, track: TrackKey)
    requires track == TrackKey([], []) && f.trackAlias == [SLASH]
    ensures OfSubscription(KeyFor([], f), [], track)
  {
  }

  lemma DoneFits(s: State, f: ObjectFrame, track: TrackKey)
    ensures Fits(s, [f], UpstreamDone(track))
  {
  }

  lemma OneSubscribed(cfg: Config, track: TrackKey) returns (r: State)
    requires cfg == Config(1, 1000, 1)
    ensures Sound(Initial(cfg)) && Fits(Initial(cfg), [], Subscribe([], track, 1))
    ensures r == Step(Initial(cfg), Subscribe([], track, 1))
    ensures r == Initial(cfg).(sockets := map[[] := 1], byTrack := [Subscribers(track, [[]])])
  {
    r := OnSubscribe(Initial(cfg), [], track, 1);
    assert r.sockets == map[[] := 1];
  }

  lemma ShortObjectFits(s: State, f: ObjectFrame, qlen: int -> int)
    requires f == ObjectFrame(0, 0, 0, 0, 0, 0, 0, [SLASH])
    ensures Fits(s, [], Object(f, 0, qlen))
  {
  }

  lemma OneTrackEnded(s: State, f: ObjectFrame, track: TrackKey, cmd: Command) returns (r: State)
    requires Sound(s) && s.sockets == map[[] := 1] && s.byTrack == [Subscribers(track, [[]])]
    requires s.Queue(1) == [] && s.ch.wire == [cmd] && KeyFor([], f) in s.ch.open
    ensures r == Step(s, UpstreamDone(track))
    ensures r.ch.wire == [cmd, PublishDone(1, -1, track.Alias(), PUBDONE_TRACK_ENDED)]
    ensures r.ch.open == s.ch.open
  {
    EndSubscriberTrackExact(s, [], track, PUBDONE_TRACK_ENDED);
    r := EndSubscriberTrack(s, [], track, PUBDONE_TRACK_ENDED);
    assert CutKeys([], track.Alias()) == {} && s.ch.open - {} == s.ch.open;
    hide EndSubscriberTrack, SubscribersOf, EndForAll;
    OneSubscriber(s, track);
  }

  lemma OneSubscriber(s: State, track: TrackKey)
    requires s.byTrack == [Subscribers(track, [[]])]
    ensures SubscribersOf(s.byTrack, track) == [[]]
    ensures EndForAll(s, [[]], track, PUBDONE_TRACK_ENDED) == EndSubscriberTrack(s, [], track, PUBDONE_TRACK_ENDED)
  {
    hide EndSubscriberTrack;
    var r := EndSubscriberTrack(s, [], track, PUBDONE_TRACK_ENDED);
    assert EndForAll(r, [], track, PUBDONE_TRACK_ENDED) == r;
  }

  /** The relay's one object goes to its one subscriber, in one command. */
  lemma OneObjectOut(s: State, f: ObjectFrame, track: TrackKey, qlen: int -> int) returns (r: State, cmd: Command)
    requires track == TrackKey([], []) && f == ObjectFrame(0, 0, 0, 0, 0, 0, 0, [SLASH]) && Sound(s) && qlen(1) == 0
    requires s == Initial(Config(1, 1000, 1)).(sockets := map[[] := 1], byTrack := [Subscribers(track, [[]])])
    ensures Sound(r) && r == Step(s, Object(f, 0, qlen))
    ensures r.ch.wire == [cmd] && cmd.Send? && r.Queue(1) == [] && r.sockets == s.sockets && r.byTrack == s.byTrack
    ensures KeyFor([], f) in r.ch.open && r.ch.open[KeyFor([], f)] == cmd.stream
  {
    hide Forward, TrackOf, Sound, SubscribersOf;
    SlashIsTrack();
    OneSubscriber(s, track);
    r, cmd := OneForwarded(s, f, qlen);
    ForwardedToOne(s, f, qlen);
    assert OnObject(s, f, 0, qlen) == ForwardAll(s, [[]], f, 0, qlen);
  }

  lemma SlashIsTrack()
    ensures TrackOf([SLASH]).Some? && TrackOf([SLASH]).value == TrackKey([], [])
  {
    assert Find([SLASH], SLASH) == 0;
  }

  lemma ForwardedToOne(s: State, f: ObjectFrame, qlen: int -> int)
    requires Sound(s)
    ensures ForwardAll(s, [[]], f, 0, qlen) == Forward(s, [], f, 0, qlen)
  {
    hide Forward, Sound;
    var ids: seq<Bytes> := [[]];
    assert ids[1..] == [] && ForwardAll(Forward(s, [], f, 0, qlen), [], f, 0, qlen) == Forward(s, [], f, 0, qlen);
  }

  lemma OneForwarded(s: State, f: ObjectFrame, qlen: int -> int) returns (r: State, cmd: Command)
    requires f == ObjectFrame(0, 0, 0, 0, 0, 0, 0, [SLASH]) && Sound(s) && qlen(1) == 0
    requires s.cfg == Config(1, 1000, 1) && s.ch == EmptyChannel({}, 1) && s.sockets == map[[] := 1]
    requires s.count == map[] && s.blocked == {} && s.eventBytes == map[] && s.timeouts == map[]
    ensures r == Forward(s, [], f, 0, qlen)
    ensures r.ch.wire == [cmd] && cmd.Send? && r.Queue(1) == [] && r.sockets == s.sockets && r.byTrack == s.byTrack
    ensures KeyFor([], f) in r.ch.open && r.ch.open[KeyFor([], f)] == cmd.stream
  {
    var k := KeyFor([], f);
    var a := Enqueued(s, 1, k, f);
    EnqueuedSound(s, 1, k, f);
    var item := FirstQueued(s, k, f);
    assert |item.bytes| <= 1000;
    hide Enqueued, FlushLoop, Encode, Sound, EndTracks, TimeoutOf, NewItem;
    var t := EnterEvent(a, 0);
    assert Sound(t) by {
      EnteredSound(a, 0);
    }
    cmd := FlushedWhole(t, item);
    r := Flush(a, 1, 0, qlen(1));
  }

  lemma EnteredSound(s: State, now: int)
    requires Sound(s)
    ensures Sound(EnterEvent(s, now))
  {
  }

  lemma FirstQueued(s: State, k: DownSubgroup, f: ObjectFrame) returns (item: Item<DownSubgroup>)
    requires s.ch == EmptyChannel({}, 1) && s.count == map[]
    ensures var a := Enqueued(s, 1, k, f);
      && item == NewItem(k, 1, f, TimeoutOf(s, f)) && a.Queue(1) == [item] && a.Count(1) == 1
      && a.ch.open == map[k := 1] && a.ch.reset == map[] && a.ch.wire == []
      && a.(ch := s.ch, count := s.count, pending := s.pending) == s
  {
    hide Encode, TimeoutOf;
    item := NewItem(k, 1, f, TimeoutOf(s, f));
    var a := Enqueued(s, 1, k, f);
    assert a.Queue(1) == Insert([], item);
  }

  /** A queue of one short object that is not stale is flushed in one turn. */
  lemma FlushedWhole(s: State, item: Item<DownSubgroup>) returns (cmd: Command)
    requires Sound(s) && s.Queue(1) == [item] && item.sentOffset == 0 && |item.bytes| <= s.cfg.chunk
    requires s.blocked == {} && s.Written(1) < s.cfg.queueLimit && item.key !in s.ch.reset && !item.Stale(0)
    ensures var r := FlushLoop(s, 1, 0, 0);
      && cmd.Send? && cmd.stream == item.stream && r.ch.wire == s.ch.wire + [cmd]
      && r.Queue(1) == [] && r.ch.open == s.ch.open && r.sockets == s.sockets && r.byTrack == s.byTrack
  {
    assert AllUnfinished(s.ch.queue[1]);
    assert Unfinished(s.ch.queue[1][0]);
    cmd := SliceCommand(item, s.cfg.chunk);
    FlushStepShrinks(s, 1, 0);
    hide HistAfter, Sound, Work;
    var r := FlushStep(s, 1, 0);
    assert r == Write(s, 1);
    assert r.Queue(1) == Remove([item], 0) == [];
    assert FlushLoop(r, 1, 0, 0) == r;
  }

  lemma RunOfThree(s: State, s1: State, s2: State, s3: State, es: seq<Event>)
    requires |es| == 3 && Sound(s) && s1 == Step(s, es[0]) && s2 == Step(s1, es[1]) && s3 == Step(s2, es[2])
    requires !es[0].Object? && es[1].Object? && !es[2].Object?
    requires Fits(s, [], es[0]) && Fits(s1, [], es[1]) && Fits(s2, [es[1].frame], es[2])
    ensures RunFits(s, [], es) && Run(s, es) == s3
  {
    hide Fits, Step, Sound;
    var f := es[1].frame;
    assert es[1..] == [es[1], es[2]] && es[1..][1..] == [es[2]] && es[1..][1..][1..] == [];
    assert RunFits(s3, [f] + Arrivals(es[2]), []) && Run(s3, []) == s3;
    assert RunFits(s2, [f], [es[2]]) && Run(s2, [es[2]]) == s3;
    assert [] + Arrivals(es[1]) == [f];
    assert RunFits(s1, [], [es[1], es[2]]) && Run(s1, [es[1], es[2]]) == s3;
    assert [] + Arrivals(es[0]) == [];
  }

  /**
   * Every downstream stream belongs to one subscriber and one subgroup of one track. Whatever part of its
   * bytes is delivered, in whatever packets, parses to whole objects of that subgroup, in ascending object
   * id, each of which the relay was given by the publisher, unaltered.
   */
  lemma ForwardedFaithfully(cfg: Config, es: seq<Event>, id: int, packets: seq<Bytes>)
    requires 0 < cfg.chunk && RunFits(Initial(cfg), [], es)
    requires id in Run(Initial(cfg), es).ch.hist
    requires Concat(packets) <= StreamBytes(Run(Initial(cfg), es).ch.wire, id)
    ensures var (got, rest) := Feed(TryParse, [], packets);
      var k := Run(Initial(cfg), es).ch.hist[id].key;
      && AscendingIds(got)
      && (forall f :: f in got ==> f in Run(Initial(cfg), es).ch.hist[id].offered)
      && (forall f :: f in got ==> f in ArrivedIn(es) && f.trackAlias == k.alias && f.groupId == k.groupId && f.subgroupId == k.subgroupId)
      && EncodeAll(Encode, got) + rest == Concat(packets)
  {
    InitialInv(cfg);
    RunInv(Initial(cfg), [], es);
    assert [] + ArrivedIn(es) == ArrivedIn(es);
    var r := Run(Initial(cfg), es);
    assert CarriesOnly(r.ch.hist[id], ArrivedIn(es));
    hide Encode, SendQueue.Valid, Counted, Routed, Listed, StreamBytes;
    NeverDesynchronised(r.ch, id, packets);
  }
}
