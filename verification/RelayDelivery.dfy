/**
 What becomes of an object that arrives at the relay: it goes to every subscriber of its track and to no one
 else. And who is a subscriber of a track, and how that ends.
 */
module RelayDelivery {
  import opened Bytes
  import opened MoqFraming
  import opened SendQueue
  import opened Relay
  import opened RelayInvariant
  import opened RelayRuns
  import Pacing

  // ---- Who is subscribed ----

  ghost predicate SubscribedTo(entries: seq<Subscribers>, track: TrackKey, id: Bytes) {
    exists i :: 0 <= i < |entries| && entries[i].track == track && id in entries[i].ids
  }

  lemma {:induction false} ListedSubscribers(entries: seq<Subscribers>, track: TrackKey, id: Bytes)
    requires Listed(entries)
    ensures id in SubscribersOf(entries, track) <==> SubscribedTo(entries, track, id)
  {
    if entries != [] {
      ListedTail(entries);
      ListedSubscribers(entries[1..], track, id);
      FirstOrLater(entries, track, id);
      hide NoRepeats, Listed;
      if entries[0].track == track {
        assert !SubscribedTo(entries[1..], track, id);
      }
    }
  }

  lemma FirstOrLater(entries: seq<Subscribers>, track: TrackKey, id: Bytes)
    requires entries != []
    ensures SubscribedTo(entries, track, id) <==> (entries[0].track == track && id in entries[0].ids) || SubscribedTo(entries[1..], track, id)
  {
    if SubscribedTo(entries, track, id) {
      var i :| 0 <= i < |entries| && entries[i].track == track && id in entries[i].ids;
      if i > 0 {
        assert entries[1..][i - 1] == entries[i];
      }
    }
    if SubscribedTo(entries[1..], track, id) {
      var i :| 0 <= i < |entries[1..]| && entries[1..][i].track == track && id in entries[1..][i].ids;
      assert entries[i + 1] == entries[1..][i];
    }
  }

  /** A SUBSCRIBE adds that subscription and no other. */
  lemma {:induction false} SubscribeAdds(entries: seq<Subscribers>, track: TrackKey, id: Bytes, t: TrackKey, i: Bytes)
    ensures SubscribedTo(Subscribed(entries, track, id), t, i) <==> (t == track && i == id) || SubscribedTo(entries, t, i)
  {
    var r := Subscribed(entries, track, id);
    FirstOrLater(r, t, i);
    if entries == [] {
      assert r[1..] == [];
    } else {
      FirstOrLater(entries, t, i);
      assert r[1..] == if entries[0].track == track then entries[1..] else Subscribed(entries[1..], track, id);
      SubscribeAdds(entries[1..], track, id, t, i);
    }
  }

  /** The end of a subscription removes that one and no other. */
  lemma {:induction false} UnsubscribeRemoves(entries: seq<Subscribers>, track: TrackKey, id: Bytes, t: TrackKey, i: Bytes)
    requires Listed(entries)
    ensures SubscribedTo(Unsubscribe(entries, track, id), t, i) <==> SubscribedTo(entries, t, i) && !(t == track && i == id)
  {
    if entries != [] {
      ListedTail(entries);
      FirstOrLater(entries, t, i);
      var e, tail := entries[0], entries[1..];
      hide NoRepeats, Listed;
      if e.track == track {
        NotTwice(entries, i);
        var shorter := Subscribers(track, Without(e.ids, id));
        FirstOrLater([shorter] + tail, t, i);
        assert ([shorter] + tail)[1..] == tail;
      } else {
        UnsubscribeRemoves(tail, track, id, t, i);
        var rest := Unsubscribe(tail, track, id);
        FirstOrLater([e] + rest, t, i);
        assert ([e] + rest)[1..] == rest;
      }
    }
  }

  lemma NotTwice(entries: seq<Subscribers>, id: Bytes)
    requires entries != [] && Listed(entries)
    ensures !SubscribedTo(entries[1..], entries[0].track, id)
  {
    ListedTail(entries);
  }

  /** The tracks ended when a subscriber is too far behind are those it is subscribed to. */
  lemma {:induction false} TracksOfSubscriber(entries: seq<Subscribers>, id: Bytes, track: TrackKey)
    ensures track in TracksOf(entries, id) <==> SubscribedTo(entries, track, id)
  {
    if entries != [] {
      TracksOfSubscriber(entries[1..], id, track);
      FirstOrLater(entries, track, id);
    }
  }

  // ---- An object reaches every subscriber ----

  function SubgroupOf(id: Bytes, f: ObjectFrame): DownSubgroup {
    DownSubgroup(id, f.trackAlias, f.groupId, f.subgroupId)
  }

  /** Some stream of the subgroup has the object as the last it was offered. */
  ghost predicate LastOn(c: Channel<DownSubgroup>, k: DownSubgroup, f: ObjectFrame) {
    exists n :: n in c.hist && c.hist[n].key == k && c.hist[n].offered != [] && c.hist[n].offered[|c.hist[n].offered| - 1] == f
  }

  function OfferedBefore(c: Channel<DownSubgroup>, n: int): seq<ObjectFrame> {
    if n in c.hist then c.hist[n].offered else []
  }

  /** Streams keep their owners, and only streams of the given subgroups got the object, once each. */
  ghost predicate OnlyTo(c: Channel<DownSubgroup>, d: Channel<DownSubgroup>, ks: set<DownSubgroup>, f: ObjectFrame) {
    && (forall n :: n in c.hist ==> n in d.hist && d.hist[n].key == c.hist[n].key)
    && (forall n :: n in d.hist ==>
          || (n in c.hist && d.hist[n].offered == c.hist[n].offered)
          || (d.hist[n].key in ks && d.hist[n].offered == OfferedBefore(c, n) + [f]))
  }

  lemma KeptOffers(c: Channel<DownSubgroup>, b: Channel<DownSubgroup>, d: Channel<DownSubgroup>, ks: set<DownSubgroup>, f: ObjectFrame)
    requires OnlyTo(c, b, ks, f) && Keeps(b, d)
    ensures OnlyTo(c, d, ks, f)
    ensures forall k :: LastOn(b, k, f) ==> LastOn(d, k, f)
  {
    assert forall n :: n in d.hist ==> SameOwner(b.hist[n], d.hist[n]);
    forall k | LastOn(b, k, f)
      ensures LastOn(d, k, f)
    {
      var n :| n in b.hist && b.hist[n].key == k && b.hist[n].offered != [] && b.hist[n].offered[|b.hist[n].offered| - 1] == f;
      assert d.hist[n].key == k && d.hist[n].offered == b.hist[n].offered;
    }
  }

  lemma EnqueuedOffers(s: State, id: Bytes, f: ObjectFrame)
    requires Streams(s.ch) && id in s.sockets && SubgroupOf(id, f) !in s.ch.reset
    ensures var r, k := Enqueued(s, s.sockets[id], KeyFor(id, f), f), SubgroupOf(id, f);
      && OnlyTo(s.ch, r.ch, {k}, f) && LastOn(r.ch, k, f)
      && r.ch.reset == s.ch.reset && r.sockets == s.sockets && r.byTrack == s.byTrack
  {
    hide Accept, Insert, NewItem;
    var r := Enqueued(s, s.sockets[id], KeyFor(id, f), f);
    AcceptShape(s.ch, s.sockets[id], KeyFor(id, f), f, TimeoutOf(s, f));
    var h := r.ch.hist[r.ch.open[KeyFor(id, f)]];
    assert h.offered[|h.offered| - 1] == f;
  }

  /** Forwarding to one subscriber: refused when it is gone or the subgroup was reset, else on a stream of its own. */
  lemma ForwardOffers(s: State, arrived: seq<ObjectFrame>, id: Bytes, f: ObjectFrame, now: int, qlen: int -> int)
    requires Inv(s, arrived) && Sound(s) && Ready(s.ch, id, f) && f in arrived
    ensures var r, k := Forward(s, id, f, now, qlen), SubgroupOf(id, f);
      && r.sockets == s.sockets && (forall j :: j in s.ch.reset ==> j in r.ch.reset)
      && (if id in s.sockets && k !in s.ch.reset then OnlyTo(s.ch, r.ch, {k}, f) && LastOn(r.ch, k, f) else r == s)
  {
    hide Inv, Sound, Ready, Enqueued, Limited, Flush, Streams, OnlyTo, LastOn, Follows;
    InvStreams(s, arrived);
    if !(id !in s.sockets || KeyFor(id, f) in s.ch.reset) {
      var sock := s.sockets[id];
      var a := Enqueued(s, sock, KeyFor(id, f), f);
      EnqueuedOffers(s, id, f);
      EnqueuedInv(s, arrived, id, f);
      EnqueuedSound(s, sock, KeyFor(id, f), f);
      var b := Limited(a, id, sock);
      LimitedInv(a, arrived, id, sock);
      LimitedSound(a, id, sock);
      KeptOffers(s.ch, a.ch, b.ch, {SubgroupOf(id, f)}, f);
      FlushInv(b, arrived, sock, now, qlen(sock));
      KeptOffers(s.ch, b.ch, Flush(b, sock, now, qlen(sock)).ch, {SubgroupOf(id, f)}, f);
    }
  }

  ghost function SubgroupsOf(s: State, ids: seq<Bytes>, f: ObjectFrame): set<DownSubgroup> {
    set i | 0 <= i < |ids| && ids[i] in s.sockets :: SubgroupOf(ids[i], f)
  }

  /** Every connected one of the subscribers has been reached, or its subgroup is reset; nobody else has been. */
  ghost predicate ReachedAll(s: State, r: State, ids: seq<Bytes>, f: ObjectFrame) {
    && OnlyTo(s.ch, r.ch, SubgroupsOf(s, ids, f), f)
    && (forall i :: 0 <= i < |ids| && ids[i] in s.sockets ==> SubgroupOf(ids[i], f) in r.ch.reset || LastOn(r.ch, SubgroupOf(ids[i], f), f))
    && (forall j :: j in s.ch.reset ==> j in r.ch.reset) && r.sockets == s.sockets
  }

  lemma {:induction false} ForwardAllReaches(s: State, arrived: seq<ObjectFrame>, ids: seq<Bytes>, f: ObjectFrame, now: int, qlen: int -> int)
    requires Inv(s, arrived) && Sound(s) && AllReady(s.ch, ids, f) && NoRepeats(ids) && f in arrived
    ensures ReachedAll(s, ForwardAll(s, ids, f, now, qlen), ids, f)
    decreases |ids|
  {
    hide Inv, Sound, Ready, Forward, ReachedAll, OnlyTo, LastOn;
    if ids == [] {
      NobodyReached(s, f);
    } else {
      var t := Forward(s, ids[0], f, now, qlen);
      ForwardInv(s, arrived, ids[0], ids[1..], f, now, qlen);
      ForwardOffers(s, arrived, ids[0], f, now, qlen);
      ForwardAllReaches(t, arrived, ids[1..], f, now, qlen);
      OneMoreReached(s, t, ForwardAll(t, ids[1..], f, now, qlen), ids, f);
    }
  }

  lemma NobodyReached(s: State, f: ObjectFrame)
    ensures ReachedAll(s, s, [], f)
  {
  }

  lemma OneMoreReached(s: State, t: State, r: State, ids: seq<Bytes>, f: ObjectFrame)
    requires ids != [] && NoRepeats(ids) && ReachedAll(t, r, ids[1..], f)
    requires t.sockets == s.sockets && (forall j :: j in s.ch.reset ==> j in t.ch.reset)
    requires var k := SubgroupOf(ids[0], f);
      if ids[0] in s.sockets && k !in s.ch.reset then OnlyTo(s.ch, t.ch, {k}, f) && LastOn(t.ch, k, f) else t == s
    ensures ReachedAll(s, r, ids, f)
  {
    var k := SubgroupOf(ids[0], f);
    assert forall i :: 0 <= i < |ids[1..]| ==> ids[1..][i] == ids[i + 1];
    OthersDiffer(t, ids, f);
    SubgroupsMore(s, ids, f);
    hide NoRepeats;
    if ids[0] in s.sockets && k !in s.ch.reset {
      OnlyToJoins(s.ch, t.ch, r.ch, k, SubgroupsOf(t, ids[1..], f), f);
    } else {
      OnlyToMore(s.ch, r.ch, SubgroupsOf(t, ids[1..], f), SubgroupsOf(s, ids, f), f);
    }
    hide OnlyTo, LastOn, SubgroupsOf;
    forall i | 0 <= i < |ids| && ids[i] in s.sockets
      ensures SubgroupOf(ids[i], f) in r.ch.reset || LastOn(r.ch, SubgroupOf(ids[i], f), f)
    {
      if i > 0 {
        assert ids[1..][i - 1] == ids[i];
      }
    }
  }

  lemma OthersDiffer(t: State, ids: seq<Bytes>, f: ObjectFrame)
    requires ids != [] && NoRepeats(ids)
    ensures SubgroupOf(ids[0], f) !in SubgroupsOf(t, ids[1..], f)
  {
    assert forall i :: 0 <= i < |ids[1..]| ==> ids[1..][i] == ids[i + 1];
  }

  lemma SubgroupsMore(s: State, ids: seq<Bytes>, f: ObjectFrame)
    requires ids != []
    ensures SubgroupsOf(s, ids[1..], f) <= SubgroupsOf(s, ids, f)
    ensures ids[0] in s.sockets ==> SubgroupOf(ids[0], f) in SubgroupsOf(s, ids, f)
    ensures forall k :: k in SubgroupsOf(s, ids, f) ==> k in SubgroupsOf(s, ids[1..], f) || k == SubgroupOf(ids[0], f)
  {
    assert forall i :: 0 <= i < |ids[1..]| ==> ids[1..][i] == ids[i + 1];
  }

  lemma OnlyToMore(c: Channel<DownSubgroup>, d: Channel<DownSubgroup>, ks: set<DownSubgroup>, more: set<DownSubgroup>, f: ObjectFrame)
    requires OnlyTo(c, d, ks, f) && ks <= more
    ensures OnlyTo(c, d, more, f)
  {
  }

  /** First to one subgroup, then to others. */
  lemma OnlyToJoins(c: Channel<DownSubgroup>, m: Channel<DownSubgroup>, d: Channel<DownSubgroup>, k: DownSubgroup, ks: set<DownSubgroup>, f: ObjectFrame)
    requires OnlyTo(c, m, {k}, f) && LastOn(m, k, f) && OnlyTo(m, d, ks, f) && k !in ks
    ensures LastOn(d, k, f)
    ensures forall more :: ks <= more && k in more ==> OnlyTo(c, d, more, f)
  {
    var n :| n in m.hist && m.hist[n].key == k && m.hist[n].offered != [] && m.hist[n].offered[|m.hist[n].offered| - 1] == f;
    assert d.hist[n].key == k && d.hist[n].offered == m.hist[n].offered;
    forall n | n in d.hist && !(n in c.hist && d.hist[n].offered == c.hist[n].offered)
      ensures d.hist[n].key in ks + {k} && d.hist[n].offered == OfferedBefore(c, n) + [f]
    {
      if n in m.hist {
        assert d.hist[n].key == m.hist[n].key;
      }
    }
    assert OnlyTo(c, d, ks + {k}, f);
    forall more | ks <= more && k in more
      ensures OnlyTo(c, d, more, f)
    {
      OnlyToMore(c, d, ks + {k}, more, f);
    }
  }

  /**
   * An object that arrives goes to every connected subscriber of its track: it is the last object offered on a
   * stream of that subscriber's subgroup, unless that subgroup is reset. Each stream gets it at most once, and
   * no stream of any other subgroup or subscriber gets it, nor anything else.
   */
  lemma ObjectReachesAll(s: State, arrived: seq<ObjectFrame>, f: ObjectFrame, now: int, qlen: int -> int, track: TrackKey)
    requires Inv(s, arrived) && Sound(s) && Arrivable(arrived, f)
    requires f.trackAlias == track.trackNamespace + [47] + track.trackName && 47 !in track.trackNamespace
    ensures var r := OnObject(s, f, now, qlen);
      && (forall id :: SubscribedTo(s.byTrack, track, id) && id in s.sockets ==>
            SubgroupOf(id, f) in r.ch.reset || LastOn(r.ch, SubgroupOf(id, f), f))
      && (forall n :: n in s.ch.hist ==> n in r.ch.hist && r.ch.hist[n].key == s.ch.hist[n].key)
      && (forall n :: n in r.ch.hist ==>
            || (n in s.ch.hist && r.ch.hist[n].offered == s.ch.hist[n].offered)
            || (r.ch.hist[n].offered == OfferedBefore(s.ch, n) + [f]
                && exists id :: SubscribedTo(s.byTrack, track, id) && id in s.sockets && r.ch.hist[n].key == SubgroupOf(id, f)))
  {
    var ids := SubscribersOf(s.byTrack, track);
    OnObjectForwards(s, f, now, qlen, track);
    MoreArrived(s, arrived, f);
    InvListed(s, arrived);
    ListedOnce(s.byTrack, track);
    forall i | 0 <= i < |ids|
      ensures Ready(s.ch, ids[i], f)
    {
      ArrivableReady(s, arrived, ids[i], f);
    }
    hide Inv, Sound, Ready, ForwardAll, Arrivable, ReachedAll, OnObject;
    ForwardAllReaches(s, arrived + [f], ids, f, now, qlen);
    ReachedSubscribers(s, OnObject(s, f, now, qlen), track, ids, f);
  }

  lemma OnObjectForwards(s: State, f: ObjectFrame, now: int, qlen: int -> int, track: TrackKey)
    requires Sound(s) && f.trackAlias == track.trackNamespace + [47] + track.trackName && 47 !in track.trackNamespace
    ensures OnObject(s, f, now, qlen) == ForwardAll(s, SubscribersOf(s.byTrack, track), f, now, qlen)
  {
    hide ForwardAll, Sound;
    FirstSlash(f.trackAlias, track);
  }

  /** The track of an alias is cut at its first slash. */
  lemma FirstSlash(alias: Bytes, track: TrackKey)
    requires alias == track.trackNamespace + [47] + track.trackName && 47 !in track.trackNamespace
    ensures TrackOf(alias).Some? && TrackOf(alias).value == track
  {
    var n := |track.trackNamespace|;
    assert alias[n] == 47 && alias[..n] == track.trackNamespace && alias[n + 1..] == track.trackName;
    forall j | 0 <= j < n
      ensures alias[j] != SLASH
    {
      assert alias[j] == track.trackNamespace[j];
    }
    assert Find(alias, SLASH) == n;
  }

  lemma InvListed(s: State, arrived: seq<ObjectFrame>)
    requires Inv(s, arrived)
    ensures Listed(s.byTrack)
  {
    hide Core, Origin;
  }

  lemma ReachedSubscribers(s: State, r: State, track: TrackKey, ids: seq<Bytes>, f: ObjectFrame)
    requires Listed(s.byTrack) && ids == SubscribersOf(s.byTrack, track) && ReachedAll(s, r, ids, f)
    ensures forall id :: SubscribedTo(s.byTrack, track, id) && id in s.sockets ==>
      SubgroupOf(id, f) in r.ch.reset || LastOn(r.ch, SubgroupOf(id, f), f)
    ensures forall n :: n in s.ch.hist ==> n in r.ch.hist && r.ch.hist[n].key == s.ch.hist[n].key
    ensures forall n :: n in r.ch.hist ==>
      || (n in s.ch.hist && r.ch.hist[n].offered == s.ch.hist[n].offered)
      || (r.ch.hist[n].offered == OfferedBefore(s.ch, n) + [f]
          && exists id :: SubscribedTo(s.byTrack, track, id) && id in s.sockets && r.ch.hist[n].key == SubgroupOf(id, f))
  {
    hide SubscribersOf, LastOn;
    forall id | SubscribedTo(s.byTrack, track, id) && id in s.sockets
      ensures SubgroupOf(id, f) in r.ch.reset || LastOn(r.ch, SubgroupOf(id, f), f)
    {
      ListedSubscribers(s.byTrack, track, id);
      var i :| 0 <= i < |ids| && ids[i] == id;
    }
    forall n | n in r.ch.hist && !(n in s.ch.hist && r.ch.hist[n].offered == s.ch.hist[n].offered)
      ensures exists id :: SubscribedTo(s.byTrack, track, id) && id in s.sockets && r.ch.hist[n].key == SubgroupOf(id, f)
    {
      var i :| 0 <= i < |ids| && ids[i] in s.sockets && r.ch.hist[n].key == SubgroupOf(ids[i], f);
      ListedSubscribers(s.byTrack, track, ids[i]);
    }
  }

  // ---- Over runs ----

  /** Streams keep their owners and what they were offered. */
  ghost predicate Extends(c: Channel<DownSubgroup>, d: Channel<DownSubgroup>) {
    forall n :: n in c.hist ==> n in d.hist && d.hist[n].key == c.hist[n].key && c.hist[n].offered <= d.hist[n].offered
  }

  lemma FollowsExtends(c: Channel<DownSubgroup>, d: Channel<DownSubgroup>)
    requires Follows(c, d)
    ensures Extends(c, d)
  {
    assert forall n :: n in c.hist ==> SameOwner(c.hist[n], d.hist[n]);
  }

  lemma OnlyToExtends(c: Channel<DownSubgroup>, d: Channel<DownSubgroup>, ks: set<DownSubgroup>, f: ObjectFrame)
    requires OnlyTo(c, d, ks, f)
    ensures Extends(c, d)
  {
  }

  lemma ExtendsTransitive(a: Channel<DownSubgroup>, b: Channel<DownSubgroup>, c: Channel<DownSubgroup>)
    requires Extends(a, b) && Extends(b, c)
    ensures Extends(a, c)
  {
  }

  lemma OnObjectExtends(s: State, arrived: seq<ObjectFrame>, f: ObjectFrame, now: int, qlen: int -> int)
    requires Inv(s, arrived) && Sound(s) && Arrivable(arrived, f)
    ensures Extends(s.ch, OnObject(s, f, now, qlen).ch)
  {
    match TrackOf(f.trackAlias)
    case None =>
    case Some(track) =>
      var ids := SubscribersOf(s.byTrack, track);
      MoreArrived(s, arrived, f);
      InvListed(s, arrived);
      ListedOnce(s.byTrack, track);
      forall i | 0 <= i < |ids|
        ensures Ready(s.ch, ids[i], f)
      {
        ArrivableReady(s, arrived, ids[i], f);
      }
      hide Inv, Sound, Ready, ForwardAll, Arrivable, OnlyTo, Extends;
      ForwardAllReaches(s, arrived + [f], ids, f, now, qlen);
      OnlyToExtends(s.ch, ForwardAll(s, ids, f, now, qlen).ch, SubgroupsOf(s, ids, f), f);
  }

  lemma {:induction false} EndForAllExtends(s: State, arrived: seq<ObjectFrame>, ids: seq<Bytes>, track: TrackKey, status: int)
    requires Inv(s, arrived)
    ensures Extends(s.ch, EndForAll(s, ids, track, status).ch)
    decreases |ids|
  {
    hide Inv, EndSubscriberTrack, Extends, Follows;
    if ids == [] {
      KeepsReflexive(s.ch);
      FollowsExtends(s.ch, s.ch);
    } else {
      var t := EndSubscriberTrack(s, ids[0], track, status);
      EndSubscriberTrackInv(s, arrived, ids[0], track, status);
      FollowsExtends(s.ch, t.ch);
      EndForAllExtends(t, arrived, ids[1..], track, status);
      ExtendsTransitive(s.ch, t.ch, EndForAll(t, ids[1..], track, status).ch);
    }
  }

  lemma SameChannelExtends(c: Channel<DownSubgroup>, d: Channel<DownSubgroup>)
    requires d.hist == c.hist
    ensures Extends(c, d)
  {
  }

  lemma StepExtends(s: State, arrived: seq<ObjectFrame>, e: Event)
    requires Inv(s, arrived) && Sound(s) && Fits(s, arrived, e)
    ensures Extends(s.ch, Step(s, e).ch)
  {
    hide Inv, Sound, Extends, OnObject, EndForAll, Arrivable, Flush, Follows;
    match e
    case Announce(track, timeout) => SameChannelExtends(s.ch, Step(s, e).ch);
    case Subscribe(id, track, sock) => SameChannelExtends(s.ch, Step(s, e).ch);
    case Object(f, now, qlen) => OnObjectExtends(s, arrived, f, now, qlen);
    case UpstreamDone(track) => EndForAllExtends(s, arrived, SubscribersOf(s.byTrack, track), track, PUBDONE_TRACK_ENDED);
    case QueueFull(sock) => SameChannelExtends(s.ch, Step(s, e).ch);
    case QueueDrained(sock, now, queueLength) => DrainedExtends(s, arrived, sock, now, queueLength);
    case Closed(sock) => SameChannelExtends(s.ch, Step(s, e).ch);
  }

  lemma DrainedExtends(s: State, arrived: seq<ObjectFrame>, sock: int, now: int, queueLength: int)
    requires Inv(s, arrived) && Sound(s)
    ensures Extends(s.ch, OnQueueDrained(s, sock, now, queueLength).ch)
  {
    hide Inv, Sound, Flush, Follows, Extends;
    var t := Touched(s, sock);
    var u := t.(blocked := t.blocked - {sock});
    TouchedInv(s, arrived, sock);
    BlockedInv(t, arrived, t.blocked - {sock});
    InvStreams(u, arrived);
    FlushInv(u, arrived, sock, now, queueLength);
    FollowsExtends(u.ch, Flush(u, sock, now, queueLength).ch);
    SameChannelExtends(s.ch, u.ch);
    ExtendsTransitive(s.ch, u.ch, Flush(u, sock, now, queueLength).ch);
  }

  lemma {:induction false} RunExtends(s: State, arrived: seq<ObjectFrame>, es: seq<Event>)
    requires Inv(s, arrived) && Sound(s) && RunFits(s, arrived, es)
    ensures Extends(s.ch, Run(s, es).ch)
    decreases |es|
  {
    hide Inv, Sound, Step, Fits, Extends;
    if es == [] {
      SameChannelExtends(s.ch, s.ch);
    } else {
      StepInv(s, arrived, es[0]);
      StepExtends(s, arrived, es[0]);
      RunExtends(Step(s, es[0]), arrived + Arrivals(es[0]), es[1..]);
      ExtendsTransitive(s.ch, Step(s, es[0]).ch, Run(s, es).ch);
    }
  }

  /** A run, cut after its first `i` events. */
  lemma {:induction false} RunCut(s: State, arrived: seq<ObjectFrame>, es: seq<Event>, i: nat)
    requires Inv(s, arrived) && Sound(s) && RunFits(s, arrived, es) && i <= |es|
    ensures RunFits(s, arrived, es[..i])
    ensures var t := Run(s, es[..i]);
      && Inv(t, arrived + ArrivedIn(es[..i])) && RunFits(t, arrived + ArrivedIn(es[..i]), es[i..])
      && Run(t, es[i..]) == Run(s, es)
    decreases i
  {
    hide Inv, Sound, Step, Fits;
    if i == 0 {
      assert es[0..] == es && es[..0] == [] && arrived + [] == arrived;
    } else {
      StepInv(s, arrived, es[0]);
      RunCut(Step(s, es[0]), arrived + Arrivals(es[0]), es[1..], i - 1);
      assert es[..i][0] == es[0] && es[..i][1..] == es[1..][..i - 1] && es[i..] == es[1..][i - 1..];
      assert ArrivedIn(es[..i]) == Arrivals(es[0]) + ArrivedIn(es[1..][..i - 1]);
      assert arrived + Arrivals(es[0]) + ArrivedIn(es[1..][..i - 1]) == arrived + ArrivedIn(es[..i]);
    }
  }

  /**
   * In every run: whoever is subscribed to the track of an object and connected when it arrives has it offered
   * on a stream of its own, for good, unless the subgroup of the object is reset by then.
   */
  lemma EveryArrivalForwarded(cfg: Config, es: seq<Event>, i: nat, track: TrackKey, id: Bytes)
    requires 0 < cfg.chunk && RunFits(Initial(cfg), [], es) && i < |es| && es[i].Object?
    requires es[i].frame.trackAlias == track.trackNamespace + [47] + track.trackName && 47 !in track.trackNamespace
    requires SubscribedTo(Run(Initial(cfg), es[..i]).byTrack, track, id) && id in Run(Initial(cfg), es[..i]).sockets
    ensures var k, c := SubgroupOf(id, es[i].frame), Run(Initial(cfg), es).ch;
      || k in Run(Initial(cfg), es[..i + 1]).ch.reset
      || exists n :: n in c.hist && c.hist[n].key == k && es[i].frame in c.hist[n].offered
  {
    InitialInv(cfg);
    hide Inv, RunFits, Run, SubscribedTo, TrackOf;
    ArrivalKept(Initial(cfg), [], es, i, track, id);
  }

  lemma ArrivalKept(s0: State, arrived: seq<ObjectFrame>, es: seq<Event>, i: nat, track: TrackKey, id: Bytes)
    requires Inv(s0, arrived) && Sound(s0) && RunFits(s0, arrived, es) && i < |es| && es[i].Object?
    requires es[i].frame.trackAlias == track.trackNamespace + [47] + track.trackName && 47 !in track.trackNamespace
    requires SubscribedTo(Run(s0, es[..i]).byTrack, track, id) && id in Run(s0, es[..i]).sockets
    ensures var k, c := SubgroupOf(id, es[i].frame), Run(s0, es).ch;
      || k in Run(s0, es[..i + 1]).ch.reset
      || exists n :: n in c.hist && c.hist[n].key == k && es[i].frame in c.hist[n].offered
  {
    hide Inv, Sound, RunFits, Run, SubscribedTo, LastOn, Extends, TrackOf;
    RunCut(s0, arrived, es, i);
    RunCut(s0, arrived, es, i + 1);
    RunCut(s0, arrived, es[..i + 1], i);
    assert es[..i + 1][..i] == es[..i] && es[..i + 1][i..] == [es[i]];
    var f := es[i].frame;
    ArrivalForwarded(Run(s0, es[..i]), arrived + ArrivedIn(es[..i]), es[i], track, id);
    RunExtends(Run(s0, es[..i + 1]), arrived + ArrivedIn(es[..i + 1]), es[i + 1..]);
    LastExtends(Run(s0, es[..i + 1]).ch, Run(s0, es).ch, SubgroupOf(id, f), f);
  }

  lemma LastOnOne(s: State, arrived: seq<ObjectFrame>, e: Event)
    requires Sound(s) && RunFits(s, arrived, [e])
    ensures Run(s, [e]) == Step(s, e) && Fits(s, arrived, e)
  {
    hide Step, Fits, Sound;
    assert [e][1..] == [];
    assert Run(Step(s, e), []) == Step(s, e);
  }

  lemma ArrivalForwarded(s: State, arrived: seq<ObjectFrame>, e: Event, track: TrackKey, id: Bytes)
    requires Inv(s, arrived) && Sound(s) && RunFits(s, arrived, [e]) && e.Object?
    requires e.frame.trackAlias == track.trackNamespace + [47] + track.trackName && 47 !in track.trackNamespace
    requires SubscribedTo(s.byTrack, track, id) && id in s.sockets
    ensures var r := Run(s, [e]);
      SubgroupOf(id, e.frame) in r.ch.reset || LastOn(r.ch, SubgroupOf(id, e.frame), e.frame)
  {
    LastOnOne(s, arrived, e);
    hide Inv, Sound, OnObject, Arrivable, LastOn, SubscribedTo, Run;
    ObjectReachesAll(s, arrived, e.frame, e.now, e.qlen, track);
  }

  lemma LastExtends(c: Channel<DownSubgroup>, d: Channel<DownSubgroup>, k: DownSubgroup, f: ObjectFrame)
    requires Extends(c, d)
    ensures LastOn(c, k, f) ==> exists n :: n in d.hist && d.hist[n].key == k && f in d.hist[n].offered
  {
    if LastOn(c, k, f) {
      var n :| n in c.hist && c.hist[n].key == k && c.hist[n].offered != [] && c.hist[n].offered[|c.hist[n].offered| - 1] == f;
      assert c.hist[n].offered <= d.hist[n].offered;
      assert d.hist[n].offered[|c.hist[n].offered| - 1] == f;
    }
  }
}
