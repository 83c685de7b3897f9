/**
 How subscriptions end at the relay: by the track's end, for every subscriber of it; by a queue that is too
 long, for every track of that subscriber; and by the end of a connection.
 */
module RelayEndings {
  import opened Bytes
  import opened MoqFraming
  import opened SendQueue
  import opened Relay
  import opened RelayInvariant
  import opened RelayRuns
  import opened RelayDelivery
  import opened DeliveryTimeouts
  import RelayPacing
  import Pacing

  /** The PUBLISH_DONE messages among the commands, in their order. */
  function DonesIn(wire: seq<Command>): seq<Command> {
    if wire == [] then [] else
      var last := wire[|wire| - 1];
      DonesIn(wire[..|wire| - 1]) + if last.PublishDone? then [last] else []
  }

  lemma DonesMore(wire: seq<Command>, cmd: Command)
    ensures DonesIn(wire + [cmd]) == DonesIn(wire) + if cmd.PublishDone? then [cmd] else []
  {
    assert (wire + [cmd])[..|wire|] == wire;
  }

  lemma {:induction false} ResetsAreNoDones(wire: seq<Command>, resets: seq<Command>)
    requires forall i :: 0 <= i < |resets| ==> resets[i].Reset?
    ensures DonesIn(wire + resets) == DonesIn(wire) && Pacing.DataBytes(wire + resets) == Pacing.DataBytes(wire)
  {
    if resets == [] {
      assert wire + resets == wire;
    } else {
      var n := |resets| - 1;
      ResetsAreNoDones(wire, resets[..n]);
      assert wire + resets == (wire + resets[..n]) + [resets[n]];
      DonesMore(wire + resets[..n], resets[n]);
      Pacing.DataBytesAppend(wire + resets[..n], resets[n]);
    }
  }

  lemma {:induction false} OnlyResets(q: seq<Item<DownSubgroup>>, alias: Bytes)
    ensures forall i :: 0 <= i < |ResetsFor(q, alias)| ==> ResetsFor(q, alias)[i].Reset?
  {
    if q != [] {
      OnlyResets(q[1..], alias);
    }
  }

  /** One PUBLISH_DONE, and no data; of the connection's queue the track's objects go; the subscription is over. */
  lemma EndSubscriberTrackDone(s: State, id: Bytes, track: TrackKey, status: int)
    requires id in s.sockets
    ensures var r, sock := EndSubscriberTrack(s, id, track, status), s.sockets[id];
      && DonesIn(r.ch.wire) == DonesIn(s.ch.wire) + [PublishDone(sock, -1, track.trackNamespace + [47] + track.trackName, status)]
      && Pacing.DataBytes(r.ch.wire) == Pacing.DataBytes(s.ch.wire)
      && r.Queue(sock) == OtherTracks(s.Queue(sock), track.Alias()) && (forall n :: n != sock ==> r.Queue(n) == s.Queue(n))
      && r.sockets == s.sockets && r.byTrack == Unsubscribe(s.byTrack, track, id)
  {
    EndSubscriberTrackExact(s, id, track, status);
    SameRouting(s, id, track, status);
    hide EndSubscriberTrack, OtherTracks, CutKeys, Unsubscribe;
    var sock, alias := s.sockets[id], track.Alias();
    var resets := ResetsFor(s.Queue(sock), alias);
    OnlyResets(s.Queue(sock), alias);
    ResetsAreNoDones(s.ch.wire, resets);
    DonesMore(s.ch.wire + resets, PublishDone(sock, -1, alias, status));
    Pacing.DataBytesAppend(s.ch.wire + resets, PublishDone(sock, -1, alias, status));
  }

  lemma SameRouting(s: State, id: Bytes, track: TrackKey, status: int)
    requires id in s.sockets
    ensures var r := EndSubscriberTrack(s, id, track, status);
      r.sockets == s.sockets && r.byTrack == Unsubscribe(s.byTrack, track, id)
  {
    hide Unsubscribe;
    SweepKeepsTables(s, s.sockets[id], track.Alias(), 0);
  }

  lemma {:induction false} SweepKeepsTables(s: State, sock: int, alias: Bytes, i: nat)
    requires i <= |s.Queue(sock)|
    ensures var r := SweepTrack(s, sock, alias, i);
      r.sockets == s.sockets && r.byTrack == s.byTrack && r.cfg == s.cfg && r.blocked == s.blocked
    decreases |s.Queue(sock)| - i
  {
    if i < |s.Queue(sock)| {
      QueueAfterGiveUp(s, sock, i, MOQ_ERR_SEND_BUFFER_OVERFLOW);
      GiveUpKeepsTables(s, sock, i);
      hide GiveUp;
      if s.Queue(sock)[i].key.alias == alias {
        SweepKeepsTables(GiveUp(s, sock, i, MOQ_ERR_SEND_BUFFER_OVERFLOW), sock, alias, i);
      } else {
        SweepKeepsTables(s, sock, alias, i + 1);
      }
    }
  }

  lemma GiveUpKeepsTables(s: State, sock: int, i: nat)
    requires i < |s.Queue(sock)|
    ensures var r := GiveUp(s, sock, i, MOQ_ERR_SEND_BUFFER_OVERFLOW);
      r.sockets == s.sockets && r.byTrack == s.byTrack && r.cfg == s.cfg && r.blocked == s.blocked
  {
    hide Remove;
  }

  // ---- The end of a track ----

  /** One PUBLISH_DONE for each of the subscribers that is connected, in their order. */
  function DonesFor(sockets: map<Bytes, int>, ids: seq<Bytes>, track: TrackKey, status: int): seq<Command> {
    if ids == [] then [] else
      (if ids[0] in sockets then [PublishDone(sockets[ids[0]], -1, track.trackNamespace + [47] + track.trackName, status)] else [])
      + DonesFor(sockets, ids[1..], track, status)
  }

  /** No object of the track waits for the connection. */
  ghost predicate NothingWaits(s: State, sock: int, alias: Bytes) {
    forall item :: item in s.Queue(sock) ==> item.key.alias != alias
  }

  /** Whoever is not connected keeps its entry; every other subscription of the track in the list is over. */
  ghost predicate AllEnded(s: State, r: State, ids: seq<Bytes>, track: TrackKey, status: int) {
    && DonesIn(r.ch.wire) == DonesIn(s.ch.wire) + DonesFor(s.sockets, ids, track, status)
    && Pacing.DataBytes(r.ch.wire) == Pacing.DataBytes(s.ch.wire)
    && r.sockets == s.sockets && Listed(r.byTrack)
    && (forall sock :: NothingWaits(s, sock, track.Alias()) ==> NothingWaits(r, sock, track.Alias()))
    && (forall i :: 0 <= i < |ids| && ids[i] in s.sockets ==> NothingWaits(r, s.sockets[ids[i]], track.Alias()))
    && (forall sock, item :: item in s.Queue(sock) && item.key.alias != track.Alias() ==> item in r.Queue(sock))
    && (forall t, i :: SubscribedTo(r.byTrack, t, i) <==> SubscribedTo(s.byTrack, t, i) && !(t == track && i in ids && i in s.sockets))
  }

  lemma {:induction false} EndForAllExact(s: State, arrived: seq<ObjectFrame>, ids: seq<Bytes>, track: TrackKey, status: int)
    requires Inv(s, arrived)
    ensures AllEnded(s, EndForAll(s, ids, track, status), ids, track, status)
    decreases |ids|
  {
    hide Inv, EndSubscriberTrack, AllEnded;
    InvListed(s, arrived);
    if ids == [] {
      NobodyEnded(s, track, status);
    } else {
      var t := EndSubscriberTrack(s, ids[0], track, status);
      EndSubscriberTrackInv(s, arrived, ids[0], track, status);
      InvListed(t, arrived);
      EndForAllExact(t, arrived, ids[1..], track, status);
      if ids[0] in s.sockets {
        EndSubscriberTrackDone(s, ids[0], track, status);
        OneMoreEnded(s, t, EndForAll(t, ids[1..], track, status), ids, track, status);
      } else {
        UnknownIsLeft(s, ids[0], track, status);
        GoneSkipped(s, EndForAll(s, ids[1..], track, status), ids, track, status);
      }
    }
  }

  lemma UnknownIsLeft(s: State, id: Bytes, track: TrackKey, status: int)
    requires id !in s.sockets
    ensures EndSubscriberTrack(s, id, track, status) == s
  {
  }

  lemma NobodyEnded(s: State, track: TrackKey, status: int)
    requires Listed(s.byTrack)
    ensures AllEnded(s, s, [], track, status)
  {
    hide Listed;
  }

  lemma GoneSkipped(s: State, r: State, ids: seq<Bytes>, track: TrackKey, status: int)
    requires ids != [] && ids[0] !in s.sockets && AllEnded(s, r, ids[1..], track, status)
    ensures AllEnded(s, r, ids, track, status)
  {
    hide NothingWaits, SubscribedTo, DonesIn, Listed;
    assert [] + DonesFor(s.sockets, ids[1..], track, status) == DonesFor(s.sockets, ids[1..], track, status);
    assert forall i :: 0 < i < |ids| ==> ids[1..][i - 1] == ids[i];
    assert forall i :: i in ids <==> i == ids[0] || i in ids[1..];
  }

  lemma OneMoreEnded(s: State, t: State, r: State, ids: seq<Bytes>, track: TrackKey, status: int)
    requires ids != [] && ids[0] in s.sockets && Listed(s.byTrack) && AllEnded(t, r, ids[1..], track, status)
    requires DonesIn(t.ch.wire) == DonesIn(s.ch.wire) + [PublishDone(s.sockets[ids[0]], -1, track.trackNamespace + [47] + track.trackName, status)]
    requires Pacing.DataBytes(t.ch.wire) == Pacing.DataBytes(s.ch.wire)
    requires t.Queue(s.sockets[ids[0]]) == OtherTracks(s.Queue(s.sockets[ids[0]]), track.Alias())
    requires (forall n :: n != s.sockets[ids[0]] ==> t.Queue(n) == s.Queue(n))
    requires t.sockets == s.sockets && t.byTrack == Unsubscribe(s.byTrack, track, ids[0])
    ensures AllEnded(s, r, ids, track, status)
  {
    DonesJoin(s, t, r, ids, track, status);
    QueuesJoin(s, t, r, ids, track, status);
    SubscriptionsJoin(s, t, r, ids, track, status);
    hide NothingWaits, SubscribedTo, DonesIn, DonesFor, Listed, OtherTracks, Unsubscribe;
  }

  lemma DonesJoin(s: State, t: State, r: State, ids: seq<Bytes>, track: TrackKey, status: int)
    requires ids != [] && ids[0] in s.sockets && t.sockets == s.sockets && AllEnded(t, r, ids[1..], track, status)
    requires DonesIn(t.ch.wire) == DonesIn(s.ch.wire) + [PublishDone(s.sockets[ids[0]], -1, track.trackNamespace + [47] + track.trackName, status)]
    ensures DonesIn(r.ch.wire) == DonesIn(s.ch.wire) + DonesFor(s.sockets, ids, track, status)
  {
    hide NothingWaits, SubscribedTo, DonesIn, Listed;
  }

  lemma QueuesJoin(s: State, t: State, r: State, ids: seq<Bytes>, track: TrackKey, status: int)
    requires ids != [] && ids[0] in s.sockets && t.sockets == s.sockets && AllEnded(t, r, ids[1..], track, status)
    requires t.Queue(s.sockets[ids[0]]) == OtherTracks(s.Queue(s.sockets[ids[0]]), track.Alias())
    requires (forall n :: n != s.sockets[ids[0]] ==> t.Queue(n) == s.Queue(n))
    ensures forall sock :: NothingWaits(s, sock, track.Alias()) ==> NothingWaits(r, sock, track.Alias())
    ensures forall i :: 0 <= i < |ids| && ids[i] in s.sockets ==> NothingWaits(r, s.sockets[ids[i]], track.Alias())
    ensures forall sock, item :: item in s.Queue(sock) && item.key.alias != track.Alias() ==> item in r.Queue(sock)
  {
    hide SubscribedTo, DonesIn, DonesFor, Listed;
    assert NothingWaits(t, s.sockets[ids[0]], track.Alias());
    forall sock | NothingWaits(s, sock, track.Alias())
      ensures NothingWaits(t, sock, track.Alias())
    {
    }
    forall i | 0 <= i < |ids| && ids[i] in s.sockets
      ensures NothingWaits(r, s.sockets[ids[i]], track.Alias())
    {
      if i > 0 {
        assert ids[1..][i - 1] == ids[i];
      }
    }
    forall sock, item | item in s.Queue(sock) && item.key.alias != track.Alias()
      ensures item in t.Queue(sock)
    {
    }
  }

  lemma SubscriptionsJoin(s: State, t: State, r: State, ids: seq<Bytes>, track: TrackKey, status: int)
    requires ids != [] && ids[0] in s.sockets && t.sockets == s.sockets && Listed(s.byTrack) && AllEnded(t, r, ids[1..], track, status)
    requires t.byTrack == Unsubscribe(s.byTrack, track, ids[0])
    ensures forall k, i :: SubscribedTo(r.byTrack, k, i) <==> SubscribedTo(s.byTrack, k, i) && !(k == track && i in ids && i in s.sockets)
  {
    hide NothingWaits, SubscribedTo, DonesIn, DonesFor, Listed, Unsubscribe;
    assert forall i :: i in ids <==> i == ids[0] || i in ids[1..];
    forall k, i
      ensures SubscribedTo(r.byTrack, k, i) <==> SubscribedTo(s.byTrack, k, i) && !(k == track && i in ids && i in s.sockets)
    {
      UnsubscribeRemoves(s.byTrack, track, ids[0], k, i);
    }
  }

  /**
   * When a track ends upstream, every connected subscriber of it gets one PUBLISH_DONE that says so, and no
   * longer has objects of it waiting; no other subscription ends, and nothing of other tracks is lost.
   */
  lemma TrackEndsForAll(s: State, arrived: seq<ObjectFrame>, track: TrackKey)
    requires Inv(s, arrived) && Sound(s)
    ensures var r, alias := Step(s, UpstreamDone(track)), track.trackNamespace + [47] + track.trackName;
      && DonesIn(s.ch.wire) <= DonesIn(r.ch.wire)
      && (forall id :: SubscribedTo(s.byTrack, track, id) && id in s.sockets ==>
            PublishDone(s.sockets[id], -1, alias, 0x2) in DonesIn(r.ch.wire)[|DonesIn(s.ch.wire)|..] && NothingWaits(r, s.sockets[id], alias))
      && (forall cmd :: cmd in DonesIn(r.ch.wire)[|DonesIn(s.ch.wire)|..] ==>
            exists id :: SubscribedTo(s.byTrack, track, id) && id in s.sockets && cmd == PublishDone(s.sockets[id], -1, alias, 0x2))
      && |DonesIn(r.ch.wire)| - |DonesIn(s.ch.wire)| == |SubscribersIn(s.sockets, SubscribersOf(s.byTrack, track))|
      && Pacing.DataBytes(r.ch.wire) == Pacing.DataBytes(s.ch.wire)
      && (forall sock, item :: item in s.Queue(sock) && item.key.alias != alias ==> item in r.Queue(sock))
      && (forall t, i :: SubscribedTo(r.byTrack, t, i) <==> SubscribedTo(s.byTrack, t, i) && !(t == track && i in s.sockets))
  {
    var ids := SubscribersOf(s.byTrack, track);
    InvListed(s, arrived);
    EndForAllExact(s, arrived, ids, track, PUBDONE_TRACK_ENDED);
    var r := EndForAll(s, ids, track, PUBDONE_TRACK_ENDED);
    assert Step(s, UpstreamDone(track)) == r;
    DonesMembers(s.sockets, ids, track, PUBDONE_TRACK_ENDED);
    hide Inv, Sound, Step, EndForAll, SubscribersOf, DonesFor, DonesIn, NothingWaits, SubscribedTo, Listed;
    forall id
      ensures id in ids <==> SubscribedTo(s.byTrack, track, id)
    {
      ListedSubscribers(s.byTrack, track, id);
    }
    assert DonesIn(r.ch.wire)[|DonesIn(s.ch.wire)|..] == DonesFor(s.sockets, ids, track, PUBDONE_TRACK_ENDED);
  }

  /** Those of the subscribers that are connected. */
  function SubscribersIn(sockets: map<Bytes, int>, ids: seq<Bytes>): seq<Bytes> {
    if ids == [] then [] else (if ids[0] in sockets then [ids[0]] else []) + SubscribersIn(sockets, ids[1..])
  }

  lemma {:induction false} DonesMembers(sockets: map<Bytes, int>, ids: seq<Bytes>, track: TrackKey, status: int)
    ensures var ds, alias := DonesFor(sockets, ids, track, status), track.trackNamespace + [47] + track.trackName;
      && |ds| == |SubscribersIn(sockets, ids)|
      && (forall id :: id in ids && id in sockets ==> PublishDone(sockets[id], -1, alias, status) in ds)
      && (forall cmd :: cmd in ds ==> exists id :: id in ids && id in sockets && cmd == PublishDone(sockets[id], -1, alias, status))
  {
    if ids != [] {
      DonesMembers(sockets, ids[1..], track, status);
      assert forall id :: id in ids <==> id == ids[0] || id in ids[1..];
    }
  }

  // ---- A queue that is too long ----

  /** One PUBLISH_DONE with status TOO_FAR_BEHIND for each track. */
  function TooFarBehindFor(sock: int, tracks: seq<TrackKey>): seq<Command> {
    if tracks == [] then [] else
      [PublishDone(sock, -1, tracks[0].trackNamespace + [47] + tracks[0].trackName, 0x6)] + TooFarBehindFor(sock, tracks[1..])
  }

  /** The subscriber has none of the tracks left, and none of their objects wait; all else stays. */
  ghost predicate TracksEnded(s: State, r: State, id: Bytes, sock: int, tracks: seq<TrackKey>) {
    && DonesIn(r.ch.wire) == DonesIn(s.ch.wire) + TooFarBehindFor(sock, tracks)
    && Pacing.DataBytes(r.ch.wire) == Pacing.DataBytes(s.ch.wire) && r.sockets == s.sockets && Listed(r.byTrack)
    && (forall n :: n != sock ==> r.Queue(n) == s.Queue(n))
    && (forall alias :: NothingWaits(s, sock, alias) ==> NothingWaits(r, sock, alias))
    && (forall i :: 0 <= i < |tracks| ==> NothingWaits(r, sock, tracks[i].Alias()))
    && (forall t, i :: SubscribedTo(r.byTrack, t, i) <==> SubscribedTo(s.byTrack, t, i) && !(i == id && t in tracks))
  }

  lemma {:induction false} EndTracksExact(s: State, arrived: seq<ObjectFrame>, id: Bytes, tracks: seq<TrackKey>)
    requires Inv(s, arrived) && id in s.sockets
    ensures TracksEnded(s, EndTracks(s, id, tracks, PUBDONE_TOO_FAR_BEHIND), id, s.sockets[id], tracks)
    decreases |tracks|
  {
    hide Inv, EndSubscriberTrack, TracksEnded;
    InvListed(s, arrived);
    if tracks == [] {
      NoTracksEnded(s, id);
    } else {
      var t := EndSubscriberTrack(s, id, tracks[0], PUBDONE_TOO_FAR_BEHIND);
      EndSubscriberTrackInv(s, arrived, id, tracks[0], PUBDONE_TOO_FAR_BEHIND);
      EndSubscriberTrackDone(s, id, tracks[0], PUBDONE_TOO_FAR_BEHIND);
      EndTracksExact(t, arrived, id, tracks[1..]);
      OneMoreTrack(s, t, EndTracks(t, id, tracks[1..], PUBDONE_TOO_FAR_BEHIND), id, tracks);
    }
  }

  lemma NoTracksEnded(s: State, id: Bytes)
    requires id in s.sockets && Listed(s.byTrack)
    ensures TracksEnded(s, s, id, s.sockets[id], [])
  {
    hide Listed, SubscribedTo, NothingWaits;
  }

  lemma OneMoreTrack(s: State, t: State, r: State, id: Bytes, tracks: seq<TrackKey>)
    requires tracks != [] && id in s.sockets && Listed(s.byTrack) && t.sockets == s.sockets
    requires TracksEnded(t, r, id, s.sockets[id], tracks[1..])
    requires DonesIn(t.ch.wire) == DonesIn(s.ch.wire) + [PublishDone(s.sockets[id], -1, tracks[0].trackNamespace + [47] + tracks[0].trackName, 0x6)]
    requires Pacing.DataBytes(t.ch.wire) == Pacing.DataBytes(s.ch.wire)
    requires t.Queue(s.sockets[id]) == OtherTracks(s.Queue(s.sockets[id]), tracks[0].Alias())
    requires forall n :: n != s.sockets[id] ==> t.Queue(n) == s.Queue(n)
    requires t.byTrack == Unsubscribe(s.byTrack, tracks[0], id)
    ensures TracksEnded(s, r, id, s.sockets[id], tracks)
  {
    TracksQueue(s, t, r, id, tracks);
    TracksTable(s, t, r, id, tracks);
    TracksDones(s, t, r, id, tracks);
    hide Listed, SubscribedTo, NothingWaits, DonesIn, TooFarBehindFor, OtherTracks, Unsubscribe;
  }

  lemma TracksDones(s: State, t: State, r: State, id: Bytes, tracks: seq<TrackKey>)
    requires tracks != [] && id in s.sockets && TracksEnded(t, r, id, s.sockets[id], tracks[1..])
    requires DonesIn(t.ch.wire) == DonesIn(s.ch.wire) + [PublishDone(s.sockets[id], -1, tracks[0].trackNamespace + [47] + tracks[0].trackName, 0x6)]
    ensures DonesIn(r.ch.wire) == DonesIn(s.ch.wire) + TooFarBehindFor(s.sockets[id], tracks)
  {
    hide Listed, SubscribedTo, NothingWaits, DonesIn;
  }

  lemma TracksTable(s: State, t: State, r: State, id: Bytes, tracks: seq<TrackKey>)
    requires tracks != [] && id in s.sockets && Listed(s.byTrack) && TracksEnded(t, r, id, s.sockets[id], tracks[1..])
    requires t.byTrack == Unsubscribe(s.byTrack, tracks[0], id)
    ensures forall k, i :: SubscribedTo(r.byTrack, k, i) <==> SubscribedTo(s.byTrack, k, i) && !(i == id && k in tracks)
  {
    hide Listed, SubscribedTo, NothingWaits, DonesIn, TooFarBehindFor, Unsubscribe;
    forall k, i
      ensures SubscribedTo(r.byTrack, k, i) <==> SubscribedTo(s.byTrack, k, i) && !(i == id && k in tracks)
    {
      UnsubscribeRemoves(s.byTrack, tracks[0], id, k, i);
      assert k in tracks <==> k == tracks[0] || k in tracks[1..];
    }
  }

  lemma TracksQueue(s: State, t: State, r: State, id: Bytes, tracks: seq<TrackKey>)
    requires tracks != [] && id in s.sockets && TracksEnded(t, r, id, s.sockets[id], tracks[1..])
    requires t.Queue(s.sockets[id]) == OtherTracks(s.Queue(s.sockets[id]), tracks[0].Alias())
    ensures forall alias :: NothingWaits(s, s.sockets[id], alias) ==> NothingWaits(r, s.sockets[id], alias)
    ensures forall i :: 0 <= i < |tracks| ==> NothingWaits(r, s.sockets[id], tracks[i].Alias())
  {
    hide SubscribedTo, DonesIn, TooFarBehindFor, Listed;
    var sock := s.sockets[id];
    assert NothingWaits(t, sock, tracks[0].Alias());
    forall alias | NothingWaits(s, sock, alias)
      ensures NothingWaits(t, sock, alias)
    {
    }
    hide NothingWaits;
    forall i | 0 <= i < |tracks|
      ensures NothingWaits(r, sock, tracks[i].Alias())
    {
      if i > 0 {
        assert tracks[1..][i - 1] == tracks[i];
      }
    }
  }

  /** A flush ends no subscription, and lets nothing join the queue. */
  ghost predicate OnlySends(s: State, r: State, sock: int) {
    && DonesIn(r.ch.wire) == DonesIn(s.ch.wire) && r.byTrack == s.byTrack && r.sockets == s.sockets
    && (forall n :: n != sock ==> r.Queue(n) == s.Queue(n))
    && (forall alias :: NothingWaits(s, sock, alias) ==> NothingWaits(r, sock, alias))
  }

  lemma FlushStepOnlySends(s: State, sock: int, now: int)
    requires Sound(s) && s.Queue(sock) != []
    ensures OnlySends(s, FlushStep(s, sock, now), sock)
  {
    RelayFlushTurn(s, sock, now);
    var r, q := FlushStep(s, sock, now), s.Queue(sock);
    FlushStepTables(s, sock, now);
    DonesMore(s.ch.wire, NextSlice(q[0], s.cfg.chunk));
    DonesMore(s.ch.wire, Reset(q[0].stream, 0x2));
    assert s.ch.wire + [] == s.ch.wire;
    hide FlushStep, DonesIn, InTime, SliceLength;
    assert r.Queue(sock) == q[1..] || r.Queue(sock) == SliceTaken(q, s.cfg.chunk);
    NoneJoins(q, s.cfg.chunk);
    hide SliceTaken;
  }

  lemma NoneJoins(q: seq<Item<DownSubgroup>>, chunk: int)
    requires q != [] && q[0].sentOffset < |q[0].bytes| && 0 < chunk
    ensures forall item :: item in SliceTaken(q, chunk) ==> exists x :: x in q && x.key == item.key
  {
    assert q == [q[0]] + q[1..];
  }

  lemma FlushStepTables(s: State, sock: int, now: int)
    requires s.Queue(sock) != [] && Unfinished(s.Queue(sock)[0]) && 0 < s.cfg.chunk
    ensures FlushStep(s, sock, now).byTrack == s.byTrack && FlushStep(s, sock, now).sockets == s.sockets
  {
    hide WriteFront, Drop;
  }

  lemma {:induction false} FlushOnlySends(s: State, sock: int, now: int, qlen: int)
    requires Sound(s)
    ensures OnlySends(s, FlushLoop(s, sock, now, qlen), sock)
    decreases Work(s.Queue(sock))
  {
    hide FlushStep, Work, DonesIn, NothingWaits;
    if !(sock in s.blocked || s.Queue(sock) == [] || qlen + s.Written(sock) >= s.cfg.queueLimit) {
      FlushStepShrinks(s, sock, now);
      FlushStepOnlySends(s, sock, now);
      FlushOnlySends(FlushStep(s, sock, now), sock, now, qlen);
    }
  }

  lemma EnqueuedQuiet(s: State, sock: int, k: DownSubgroup, f: ObjectFrame)
    ensures var r := Enqueued(s, sock, k, f);
      && r.ch.wire == s.ch.wire && r.byTrack == s.byTrack && r.sockets == s.sockets && r.blocked == s.blocked && r.cfg == s.cfg
      && (forall n :: n != sock ==> r.Queue(n) == s.Queue(n))
  {
    hide Insert, NewItem, TimeoutIn;
  }

  /**
   * Forwarding an object to a subscriber whose queue has room ends no subscription. When the object is one too
   * many, every track of that subscriber ends, each with one PUBLISH_DONE, and nothing of them waits any more;
   * no other subscriber and no other connection is touched.
   */
  lemma TooFarBehind(s: State, arrived: seq<ObjectFrame>, id: Bytes, f: ObjectFrame, now: int, qlen: int -> int) returns (tracks: seq<TrackKey>)
    requires Inv(s, arrived) && Sound(s) && Ready(s.ch, id, f) && f in arrived
    requires id in s.sockets && SubgroupOf(id, f) !in s.ch.reset
    ensures forall t :: t in tracks <==> SubscribedTo(s.byTrack, t, id)
    ensures forall i, j :: 0 <= i < j < |tracks| ==> tracks[i] != tracks[j]
    ensures var r, sock := Forward(s, id, f, now, qlen), s.sockets[id];
      && (forall n :: n != sock ==> r.Queue(n) == s.Queue(n)) && r.sockets == s.sockets
      && if |s.Queue(sock)| + 1 <= s.cfg.bufferLimit
         then DonesIn(r.ch.wire) == DonesIn(s.ch.wire) && r.byTrack == s.byTrack
         else
           && DonesIn(r.ch.wire) == DonesIn(s.ch.wire) + TooFarBehindFor(sock, tracks)
           && (forall i :: 0 <= i < |tracks| ==> NothingWaits(r, sock, tracks[i].trackNamespace + [47] + tracks[i].trackName))
           && (forall t, i :: SubscribedTo(r.byTrack, t, i) <==> SubscribedTo(s.byTrack, t, i) && i != id)
  {
    tracks := TracksOf(s.byTrack, id);
    forall t
      ensures t in tracks <==> SubscribedTo(s.byTrack, t, id)
    {
      TracksOfSubscriber(s.byTrack, id, t);
    }
    InvListed(s, arrived);
    TracksOnce(s.byTrack, id);
    var sock := s.sockets[id];
    LimitedExact(s, arrived, id, f);
    hide Inv, Enqueued, Limited, FlushLoop, DonesIn, SubscribedTo, TracksOf, Listed, TooFarBehindFor, NothingWaits, Ready;
    var b := Limited(Enqueued(s, sock, KeyFor(id, f), f), id, sock);
    EnteredSame(b, now, sock);
    FlushOnlySends(EnterEvent(b, now), sock, now, qlen(sock));
    hide EnterEvent;
  }

  lemma EnteredSame(s: State, now: int, sock: int)
    ensures var r := EnterEvent(s, now);
      && r.ch == s.ch && r.byTrack == s.byTrack && r.sockets == s.sockets && r.cfg == s.cfg && r.blocked == s.blocked
      && (Sound(s) ==> Sound(r))
      && (forall alias :: NothingWaits(s, sock, alias) ==> NothingWaits(r, sock, alias))
  {
  }

  /** The same before the flush. */
  lemma LimitedExact(s: State, arrived: seq<ObjectFrame>, id: Bytes, f: ObjectFrame)
    requires Inv(s, arrived) && Sound(s) && Ready(s.ch, id, f) && f in arrived
    requires id in s.sockets && SubgroupOf(id, f) !in s.ch.reset
    ensures var sock, tracks := s.sockets[id], TracksOf(s.byTrack, id);
      var r := Limited(Enqueued(s, sock, KeyFor(id, f), f), id, sock);
      && Sound(r) && (forall n :: n != sock ==> r.Queue(n) == s.Queue(n)) && r.sockets == s.sockets
      && Pacing.DataBytes(r.ch.wire) == Pacing.DataBytes(s.ch.wire)
      && if |s.Queue(sock)| + 1 <= s.cfg.bufferLimit
         then DonesIn(r.ch.wire) == DonesIn(s.ch.wire) && r.byTrack == s.byTrack
         else
           && DonesIn(r.ch.wire) == DonesIn(s.ch.wire) + TooFarBehindFor(sock, tracks)
           && (forall i :: 0 <= i < |tracks| ==> NothingWaits(r, sock, tracks[i].Alias()))
           && (forall t, i :: SubscribedTo(r.byTrack, t, i) <==> SubscribedTo(s.byTrack, t, i) && !(i == id && t in tracks))
  {
    var sock, k, tracks := s.sockets[id], KeyFor(id, f), TracksOf(s.byTrack, id);
    var a := Enqueued(s, sock, k, f);
    InvStreams(s, arrived);
    EnqueuedInv(s, arrived, id, f);
    EnqueuedSound(s, sock, k, f);
    EnqueuedQuiet(s, sock, k, f);
    OneLonger(s, arrived, sock, k, f);
    LimitedSound(a, id, sock);
    EndTracksExact(a, arrived, id, tracks);
    hide Inv, Sound, Enqueued, EndTracks, DonesIn, SubscribedTo, TracksOf, Listed, TooFarBehindFor, NothingWaits, Ready, Streams;
  }

  lemma OneLonger(s: State, arrived: seq<ObjectFrame>, sock: int, k: DownSubgroup, f: ObjectFrame)
    requires Inv(s, arrived)
    ensures Enqueued(s, sock, k, f).Count(sock) == |s.Queue(sock)| + 1
  {
    hide Insert, NewItem, Origin, Listed, Routed, SendQueue.Valid;
  }

  lemma {:induction false} TracksOnce(entries: seq<Subscribers>, id: Bytes)
    requires Listed(entries)
    ensures forall i, j :: 0 <= i < j < |TracksOf(entries, id)| ==> TracksOf(entries, id)[i] != TracksOf(entries, id)[j]
  {
    if entries != [] {
      ListedTail(entries);
      TracksOnce(entries[1..], id);
      TracksOfSubscriber(entries[1..], id, entries[0].track);
      NotTwice(entries, id);
      hide Listed, SubscribedTo;
    }
  }

  // ---- A connection that is blocked, and one that ends ----

  /** While QUIC refuses data of a connection, forwarding to it only queues: nothing is written. */
  lemma BlockedOnlyQueues(s: State, arrived: seq<ObjectFrame>, id: Bytes, f: ObjectFrame, now: int, qlen: int -> int)
    requires Inv(s, arrived) && Sound(s) && Ready(s.ch, id, f) && f in arrived
    requires id in s.sockets && s.sockets[id] in s.blocked
    ensures Pacing.DataBytes(Forward(s, id, f, now, qlen).ch.wire) == Pacing.DataBytes(s.ch.wire)
    ensures Forward(s, id, f, now, qlen).blocked == s.blocked
  {
    var sock, k := s.sockets[id], KeyFor(id, f);
    if k !in s.ch.reset {
      var a := Enqueued(s, sock, k, f);
      EnqueuedQuiet(s, sock, k, f);
      LimitedExact(s, arrived, id, f);
      EndTracksBlocked(a, id, TracksOf(a.byTrack, id));
      hide Inv, Sound, Enqueued, EndTracks, DonesIn, SubscribedTo, TracksOf, TooFarBehindFor, NothingWaits, Ready;
      var b := EnterEvent(Limited(a, id, sock), now);
      assert FlushLoop(b, sock, now, qlen(sock)) == b;
    }
  }

  lemma {:induction false} EndTracksBlocked(s: State, id: Bytes, tracks: seq<TrackKey>)
    ensures EndTracks(s, id, tracks, PUBDONE_TOO_FAR_BEHIND).blocked == s.blocked
    decreases |tracks|
  {
    hide EndSubscriberTrack;
    if tracks != [] {
      EndTrackBlocked(s, id, tracks[0]);
      EndTracksBlocked(EndSubscriberTrack(s, id, tracks[0], PUBDONE_TOO_FAR_BEHIND), id, tracks[1..]);
    }
  }

  lemma EndTrackBlocked(s: State, id: Bytes, track: TrackKey)
    ensures EndSubscriberTrack(s, id, track, PUBDONE_TOO_FAR_BEHIND).blocked == s.blocked
  {
    hide Unsubscribe;
    if id in s.sockets {
      SweepKeepsTables(s, s.sockets[id], track.Alias(), 0);
    }
  }

  /** QUIC says when a connection's queue is full, and that blocks this connection only. */
  lemma BlockedByQueueFull(s: State, sock: int)
    requires Sound(s)
    ensures var r := Step(s, QueueFull(sock));
      && (forall n :: n in r.blocked <==> n == sock || n in s.blocked)
      && (forall n :: r.Queue(n) == s.Queue(n)) && r.ch.wire == s.ch.wire && r.sockets == s.sockets && r.byTrack == s.byTrack
  {
  }

  /** Once it has drained, the queue is flushed until nothing is left or QUIC's queue is at its limit. */
  lemma FlushedWhenDrained(s: State, sock: int, now: int, queueLength: int)
    requires Sound(s)
    ensures var r := Step(s, QueueDrained(sock, now, queueLength));
      && (r.Queue(sock) == [] || queueLength + r.Written(sock) >= s.cfg.queueLimit)
      && (forall n :: n in r.blocked <==> n != sock && n in s.blocked)
      && (forall n :: n != sock ==> r.Queue(n) == s.Queue(n)) && r.sockets == s.sockets && r.byTrack == s.byTrack
  {
    hide FlushLoop, Sound, NothingWaits, DonesIn, Touched;
    var u := Unblocked(s, sock);
    EnteredSame(u, now, sock);
    FlushOnlySends(EnterEvent(u, now), sock, now, queueLength);
    RelayPacing.FlushPaced(u, sock, now, queueLength);
    FlushBlocked(EnterEvent(u, now), sock, now, queueLength);
  }

  /** The state from which a drained connection is flushed. */
  function Unblocked(s: State, sock: int): (u: State)
    requires Sound(s)
    ensures Sound(u) && u.cfg == s.cfg && u.ch.wire == s.ch.wire && u.sockets == s.sockets && u.byTrack == s.byTrack
    ensures forall n :: u.Queue(n) == s.Queue(n)
    ensures forall n :: n in u.blocked <==> n != sock && n in s.blocked
  {
    var t := Touched(s, sock);
    t.(blocked := t.blocked - {sock})
  }

  lemma {:induction false} FlushBlocked(s: State, sock: int, now: int, qlen: int)
    requires Sound(s)
    ensures FlushLoop(s, sock, now, qlen).blocked == s.blocked
    decreases Work(s.Queue(sock))
  {
    hide Work, WriteFront, Drop;
    if !(sock in s.blocked || s.Queue(sock) == [] || qlen + s.Written(sock) >= s.cfg.queueLimit) {
      FlushStepShrinks(s, sock, now);
      FlushStepBlocked(s, sock, now);
      hide FlushStep;
      FlushBlocked(FlushStep(s, sock, now), sock, now, qlen);
    }
  }

  lemma FlushStepBlocked(s: State, sock: int, now: int)
    requires s.Queue(sock) != [] && Sound(s)
    ensures FlushStep(s, sock, now).blocked == s.blocked
  {
    hide WriteFront, Drop;
    assert Unfinished(s.ch.queue[sock][0]);
  }

  /**
   * When a connection closes, its queue goes, and so do the subscribers reached over it with all that was known
   * of their streams; nothing is sent, and everything of other connections stays.
   */
  lemma ClosedExact(s: State, sock: int)
    requires Sound(s)
    ensures var r := Step(s, Closed(sock));
      && r.Queue(sock) == [] && (forall n :: n != sock ==> r.Queue(n) == s.Queue(n)) && r.ch.wire == s.ch.wire
      && (forall n :: n in r.blocked <==> n != sock && n in s.blocked)
      && (forall id :: id in r.sockets <==> id in s.sockets && s.sockets[id] != sock)
      && (forall id :: id in r.sockets ==> r.sockets[id] == s.sockets[id])
      && (forall k :: k in r.ch.open <==> k in s.ch.open && !(k.subscriber in s.sockets && s.sockets[k.subscriber] == sock))
      && (forall k :: k in r.ch.open ==> r.ch.open[k] == s.ch.open[k])
      && (forall k :: k in r.ch.reset <==> k in s.ch.reset && !(k.subscriber in s.sockets && s.sockets[k.subscriber] == sock))
      && (forall k :: k in r.ch.reset ==> r.ch.reset[k] == s.ch.reset[k])
      && r.byTrack == s.byTrack && r.timeouts == s.timeouts && r.ch.hist == s.ch.hist && r.pending == s.pending - s.Count(sock)
  {
  }
}
