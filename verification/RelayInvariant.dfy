/** What every reachable relay state satisfies, and why each operation keeps it. */
module RelayInvariant {
  import opened Bytes
  import opened MoqFraming
  import opened SendQueue
  import opened Relay

  // ---- The counters ----

  lemma KeyExists(m: map<int, int>)
    requires m != map[]
    ensures exists k :: k in m.Keys
  {
    if forall k :: k !in m.Keys {
      NoKeys(m);
    }
  }

  lemma NoKeys(m: map<int, int>)
    requires forall k :: k !in m.Keys
    ensures m == map[]
  {
    assert forall k :: k !in m;
  }

  ghost function SumMap(m: map<int, int>): int
    decreases |m|
  {
    if m == map[] then 0 else
      KeyExists(m);
      var k :| k in m.Keys;
      assert m.Keys == (m - {k}).Keys + {k};
      m[k] + SumMap(m - {k})
  }

  lemma {:induction false} SumWithout(m: map<int, int>, k: int)
    requires k in m
    ensures SumMap(m) == m[k] + SumMap(m - {k})
    decreases |m|
  {
    var j :| j in m.Keys && SumMap(m) == m[j] + SumMap(m - {j});
    if j != k {
      assert m.Keys == (m - {j}).Keys + {j} && m.Keys == (m - {k}).Keys + {k};
      SumWithout(m - {j}, k);
      SumWithout(m - {k}, j);
      assert m - {j} - {k} == m - {k} - {j};
    }
  }

  lemma SumUpdate(m: map<int, int>, k: int, v: int)
    ensures SumMap(m[k := v]) == SumMap(m) + v - (if k in m then m[k] else 0)
  {
    SumWithout(m[k := v], k);
    assert m[k := v] - {k} == m - {k};
    if k in m {
      SumWithout(m, k);
    } else {
      assert m - {k} == m;
    }
  }

  /** Each counter is the length of its queue, and the total is their sum. */
  ghost predicate Counted(s: State) {
    && s.count.Keys == s.ch.queue.Keys
    && (forall sock :: sock in s.count ==> s.count[sock] == |s.ch.queue[sock]|)
    && s.pending == SumMap(s.count)
  }

  // ---- Where streams lead and what they carry ----

  /** Open streams and queued objects belong to the connection their subscriber is reached over. */
  ghost predicate Routed(s: State) {
    && (forall id :: s.ch.IsOpen(id) ==> Reaches(s, s.ch.hist[id].key, s.ch.hist[id].socket))
    && (forall sock :: sock in s.ch.queue ==> QueueRouted(s.sockets, sock, s.ch.queue[sock]))
  }

  predicate Reaches(s: State, k: DownSubgroup, sock: int) {
    k.subscriber in s.sockets && s.sockets[k.subscriber] == sock
  }

  ghost predicate QueueRouted(sockets: map<Bytes, int>, sock: int, q: seq<Item<DownSubgroup>>) {
    forall i :: 0 <= i < |q| ==> q[i].key.subscriber in sockets && sockets[q[i].key.subscriber] == sock
  }

  /** The object is one of the stream's subgroup, and has come from the publisher. */
  predicate Carries(h: Stream<DownSubgroup>, f: ObjectFrame) {
    && f.trackAlias == h.key.alias && f.groupId == h.key.groupId && f.subgroupId == h.key.subgroupId
    && f.priority == h.priority
  }

  ghost predicate CarriesOnly(h: Stream<DownSubgroup>, arrived: seq<ObjectFrame>) {
    h.offered != [] && forall f :: f in h.offered ==> Carries(h, f) && f in arrived
  }

  ghost predicate Origin(s: State, arrived: seq<ObjectFrame>) {
    && (forall id :: id in s.ch.hist ==> CarriesOnly(s.ch.hist[id], arrived))
    && Apart(s.ch)
  }

  /** `a` is an earlier stream of the subgroup that `b` is for. */
  predicate Earlier(c: Channel<DownSubgroup>, a: int, b: int) {
    a in c.hist && b in c.hist && a < b && c.hist[a].key == c.hist[b].key
  }

  /** A subgroup's earlier streams are closed, and all their objects come before those of the later ones. */
  ghost predicate Apart(c: Channel<DownSubgroup>) {
    forall a, b :: Earlier(c, a, b) ==> !c.IsOpen(a) && AllBelow(c.hist[a].offered, c.hist[b].offered)
  }

  ghost predicate AllBelow(fs: seq<ObjectFrame>, gs: seq<ObjectFrame>) {
    forall g :: g in gs ==> Below(fs, g.objectId)
  }

  /** No subscriber is listed twice for a track. */
  ghost predicate Listed(entries: seq<Subscribers>) {
    && (forall i, j :: 0 <= i < j < |entries| ==> entries[i].track != entries[j].track)
    && (forall i :: 0 <= i < |entries| ==> NoRepeats(entries[i].ids))
  }

  ghost predicate NoRepeats(ids: seq<Bytes>) {
    forall i, j :: 0 <= i < j < |ids| ==> ids[i] != ids[j]
  }

  /** What a single step on the queues keeps. */
  ghost predicate Core(s: State) {
    0 < s.cfg.chunk && SendQueue.Valid(s.ch) && Counted(s) && Routed(s)
  }

  ghost predicate Inv(s: State, arrived: seq<ObjectFrame>) {
    Core(s) && Origin(s, arrived) && Listed(s.byTrack)
  }

  lemma InitialInv(cfg: Config)
    requires 0 < cfg.chunk
    ensures Inv(Initial(cfg), [])
  {
    EmptyValid<DownSubgroup>({}, 1);
  }

  lemma CoreSound(s: State)
    requires Core(s)
    ensures Sound(s)
  {
    hide Encode, Wire, Discipline, Counted, Routed;
    forall sock, i | sock in s.ch.queue && 0 <= i < |s.ch.queue[sock]|
      ensures Unfinished(s.ch.queue[sock][i])
    {
      assert ItemOk(s.ch, sock, s.ch.queue[sock][i]);
    }
  }

  /** `d` knows the streams of `c`, with the same owners and the same objects offered; none has opened. */
  ghost predicate Follows(c: Channel<DownSubgroup>, d: Channel<DownSubgroup>) {
    && d.hist.Keys == c.hist.Keys
    && (forall id :: id in c.hist ==> SameOwner(c.hist[id], d.hist[id]))
    && (forall id :: d.IsOpen(id) ==> c.IsOpen(id))
  }

  /** And every subgroup with an open stream or a reset one still has one or the other. */
  ghost predicate Keeps(c: Channel<DownSubgroup>, d: Channel<DownSubgroup>) {
    && Follows(c, d)
    && (forall k :: Taken(c, k) ==> Taken(d, k))
    && (forall k :: k in c.reset ==> k in d.reset)
  }

  predicate Taken(c: Channel<DownSubgroup>, k: DownSubgroup) {
    k in c.open || k in c.reset
  }

  predicate SameOwner(g: Stream<DownSubgroup>, h: Stream<DownSubgroup>) {
    h.key == g.key && h.socket == g.socket && h.priority == g.priority && h.offered == g.offered
  }

  lemma KeepsTransitive(a: Channel<DownSubgroup>, b: Channel<DownSubgroup>, c: Channel<DownSubgroup>)
    requires Keeps(a, b) && Keeps(b, c)
    ensures Keeps(a, c)
  {
  }

  lemma KeepsOrigin(s: State, r: State, arrived: seq<ObjectFrame>)
    requires Origin(s, arrived) && Keeps(s.ch, r.ch)
    ensures Origin(r, arrived)
  {
    hide Origin, Follows;
    FollowsOrigin(s, r, arrived);
  }

  lemma FollowsOrigin(s: State, r: State, arrived: seq<ObjectFrame>)
    requires Origin(s, arrived) && Follows(s.ch, r.ch)
    ensures Origin(r, arrived)
  {
    forall id | id in r.ch.hist
      ensures CarriesOnly(r.ch.hist[id], arrived)
    {
      assert SameOwner(s.ch.hist[id], r.ch.hist[id]);
      assert CarriesOnly(s.ch.hist[id], arrived);
    }
    forall a, b | Earlier(r.ch, a, b)
      ensures !r.ch.IsOpen(a) && AllBelow(r.ch.hist[a].offered, r.ch.hist[b].offered)
    {
      assert SameOwner(s.ch.hist[a], r.ch.hist[a]) && SameOwner(s.ch.hist[b], r.ch.hist[b]);
      assert Earlier(s.ch, a, b);
    }
  }

  /** The rest of the state that steps on the queues leave alone. */
  predicate SameTables(s: State, r: State) {
    r.cfg == s.cfg && r.sockets == s.sockets && r.timeouts == s.timeouts && r.blocked == s.blocked && r.byTrack == s.byTrack
  }

  // ---- One object leaves a queue ----

  lemma TakeOutCounted(s: State, sock: int, i: nat)
    requires Counted(s) && i < |s.Queue(sock)|
    ensures Counted(TakeOut(s, sock, i))
  {
    SumUpdate(s.count, sock, s.Count(sock) - 1);
  }

  lemma TakeOutRouted(s: State, sock: int, i: nat)
    requires Routed(s) && i < |s.Queue(sock)|
    ensures Routed(TakeOut(s, sock, i)) && Keeps(s.ch, TakeOut(s, sock, i).ch) && SameTables(s, TakeOut(s, sock, i))
  {
    var r := TakeOut(s, sock, i);
    assert forall id :: r.ch.IsOpen(id) == s.ch.IsOpen(id);
  }

  lemma TakeOutCore(s: State, sock: int, i: nat)
    requires Core(s) && i < |s.Queue(sock)| && Droppable(s.ch, s.Queue(sock)[i])
    ensures Core(TakeOut(s, sock, i)) && Keeps(s.ch, TakeOut(s, sock, i).ch) && SameTables(s, TakeOut(s, sock, i))
  {
    hide SendQueue.Valid, Counted, Routed, Drop, Keeps;
    DropValid(s.ch, sock, i);
    TakeOutCounted(s, sock, i);
    TakeOutRouted(s, sock, i);
  }

  /** A queued object's stream is the open stream of its subgroup, unless the subgroup was reset. */
  lemma QueuedStream(c: Channel<DownSubgroup>, sock: int, i: nat)
    requires SendQueue.Valid(c) && i < |c.Items(sock)|
    ensures var item := c.Items(sock)[i];
      && item.stream in c.hist && c.hist[item.stream].key == item.key
      && (item.key in c.open ==> c.open[item.key] == item.stream)
      && (c.IsOpen(item.stream) <==> item.key !in c.reset)
  {
    hide Wire, Discipline, Encode;
    assert ItemOk(c, sock, c.Items(sock)[i]);
  }

  lemma ResetCore(s: State, sock: int, i: nat, code: int)
    requires Core(s) && i < |s.Queue(sock)|
    ensures var r := ResetDownstream(s, s.Queue(sock)[i], code);
      && Core(r) && Keeps(s.ch, r.ch) && SameTables(s, r) && r.ch.queue == s.ch.queue
      && s.Queue(sock)[i].key in r.ch.reset
  {
    var item := s.Queue(sock)[i];
    QueuedStream(s.ch, sock, i);
    ResetStreamValid(s.ch, item.key, item.stream, code);
    hide SendQueue.Valid;
  }

  lemma GiveUpCore(s: State, sock: int, i: nat, code: int)
    requires Core(s) && i < |s.Queue(sock)|
    ensures var r := GiveUp(s, sock, i, code);
      Core(r) && Keeps(s.ch, r.ch) && SameTables(s, r)
  {
    hide Core, Keeps, TakeOut, ResetDownstream;
    var item := s.Queue(sock)[i];
    if item.sentOffset > 0 {
      var t := ResetDownstream(s, item, code);
      ResetCore(s, sock, i, code);
      TakeOutCore(t, sock, i);
      KeepsTransitive(s.ch, t.ch, TakeOut(t, sock, i).ch);
    } else {
      TakeOutCore(s, sock, i);
    }
  }

  // ---- A write ----

  lemma WriteCounted(s: State, sock: int)
    requires Counted(s) && s.Queue(sock) != [] && Unfinished(s.Queue(sock)[0]) && 0 < s.cfg.chunk
    ensures Counted(Write(s, sock))
  {
    hide HistAfter, SliceCommand, Encode;
    SumUpdate(s.count, sock, s.Count(sock) - 1);
  }

  lemma WriteKeeps(s: State, sock: int)
    requires s.Queue(sock) != [] && Unfinished(s.Queue(sock)[0]) && 0 < s.cfg.chunk
    ensures Keeps(s.ch, Write(s, sock).ch) && SameTables(s, Write(s, sock))
  {
    WriteFrontShape(s.ch, sock, s.cfg.chunk);
    hide WriteFront, Encode;
  }

  lemma WriteRouted(s: State, sock: int)
    requires Routed(s) && s.Queue(sock) != [] && Unfinished(s.Queue(sock)[0]) && 0 < s.cfg.chunk
    ensures Routed(Write(s, sock))
  {
    WriteKeeps(s, sock);
    hide HistAfter, SliceCommand, Encode;
    var r := Write(s, sock);
    forall id | r.ch.IsOpen(id)
      ensures Reaches(r, r.ch.hist[id].key, r.ch.hist[id].socket)
    {
      assert s.ch.IsOpen(id) && SameOwner(s.ch.hist[id], r.ch.hist[id]);
    }
    assert QueueRouted(s.sockets, sock, s.ch.queue[sock]);
    assert QueueRouted(r.sockets, sock, r.ch.queue[sock]);
  }

  lemma WriteCore(s: State, sock: int)
    requires Core(s) && s.Queue(sock) != [] && s.Queue(sock)[0].key !in s.ch.reset
    ensures Unfinished(s.Queue(sock)[0])
    ensures Core(Write(s, sock)) && Keeps(s.ch, Write(s, sock).ch) && SameTables(s, Write(s, sock))
  {
    QueuedStream(s.ch, sock, 0);
    CoreSound(s);
    hide SendQueue.Valid, Counted, Routed, Keeps, WriteFront;
    WriteFrontValid(s.ch, sock, s.cfg.chunk);
    WriteCounted(s, sock);
    WriteRouted(s, sock);
    WriteKeeps(s, sock);
  }

  // ---- Flushing ----

  lemma FlushStepCore(s: State, sock: int, now: int)
    requires Core(s) && Sound(s) && s.Queue(sock) != []
    ensures var r := FlushStep(s, sock, now);
      Core(r) && Keeps(s.ch, r.ch) && SameTables(s, r)
  {
    hide Core, Keeps, TakeOut, GiveUp, Write, SameTables, Sound;
    var item := s.Queue(sock)[0];
    if item.key in s.ch.reset {
      TakeOutCore(s, sock, 0);
    } else if item.Stale(now) {
      GiveUpCore(s, sock, 0, MOQ_ERR_DELIVERY_TIMEOUT);
    } else {
      WriteCore(s, sock);
    }
  }

  lemma {:induction false} FlushLoopCore(s: State, sock: int, now: int, qlen: int)
    requires Core(s) && Sound(s)
    ensures var r := FlushLoop(s, sock, now, qlen);
      Core(r) && Keeps(s.ch, r.ch) && SameTables(s, r)
    decreases Work(s.Queue(sock))
  {
    hide Core, Keeps, FlushStep, Work;
    KeepsReflexive(s.ch);
    if !(sock in s.blocked || s.Queue(sock) == [] || qlen + s.Written(sock) >= s.cfg.queueLimit) {
      var t := FlushStep(s, sock, now);
      FlushStepShrinks(s, sock, now);
      FlushStepCore(s, sock, now);
      FlushLoopCore(t, sock, now, qlen);
      KeepsTransitive(s.ch, t.ch, FlushLoop(t, sock, now, qlen).ch);
    }
  }

  lemma KeepsReflexive(c: Channel<DownSubgroup>)
    ensures Keeps(c, c)
  {
  }

  lemma FlushCore(s: State, sock: int, now: int, qlen: int)
    requires Core(s) && Sound(s)
    ensures var r := Flush(s, sock, now, qlen);
      Core(r) && Keeps(s.ch, r.ch) && SameTables(s, r)
  {
    var t := EnterEvent(s, now);
    assert Core(t) && Sound(t);
    hide Core, Sound, FlushLoop, Keeps;
    FlushLoopCore(t, sock, now, qlen);
  }

  // ---- Ending subscriptions ----

  lemma {:induction false} SweepTrackCore(s: State, sock: int, alias: Bytes, i: nat)
    requires Core(s) && i <= |s.Queue(sock)|
    ensures var r := SweepTrack(s, sock, alias, i);
      Core(r) && Keeps(s.ch, r.ch) && SameTables(s, r)
    decreases |s.Queue(sock)| - i
  {
    hide Core, Keeps, GiveUp;
    KeepsReflexive(s.ch);
    if i < |s.Queue(sock)| {
      if s.Queue(sock)[i].key.alias == alias {
        var t := GiveUp(s, sock, i, MOQ_ERR_SEND_BUFFER_OVERFLOW);
        QueueAfterGiveUp(s, sock, i, MOQ_ERR_SEND_BUFFER_OVERFLOW);
        GiveUpCore(s, sock, i, MOQ_ERR_SEND_BUFFER_OVERFLOW);
        SweepTrackCore(t, sock, alias, i);
        KeepsTransitive(s.ch, t.ch, SweepTrack(t, sock, alias, i).ch);
      } else {
        SweepTrackCore(s, sock, alias, i + 1);
      }
    }
  }

  lemma DoneCore(s: State, cmd: Command, entries: seq<Subscribers>)
    requires Core(s) && cmd.PublishDone?
    ensures var r := s.(ch := s.ch.(wire := s.ch.wire + [cmd]), byTrack := entries);
      Core(r) && Keeps(s.ch, r.ch)
  {
    ControlValid(s.ch, cmd);
    hide SendQueue.Valid;
  }

  lemma {:induction false} WithoutNoRepeats(ids: seq<Bytes>, id: Bytes)
    requires NoRepeats(ids)
    ensures NoRepeats(Without(ids, id))
  {
    if ids != [] {
      var rest := Without(ids[1..], id);
      WithoutNoRepeats(ids[1..], id);
      assert forall x :: x in rest ==> x in ids[1..];
      forall j | 0 <= j < |rest|
        ensures rest[j] != ids[0]
      {
        assert rest[j] in ids[1..];
      }
    }
  }

  /** No track of `after` is new. */
  ghost predicate TracksWithin(after: seq<Subscribers>, before: seq<Subscribers>) {
    forall i :: 0 <= i < |after| ==> exists j :: 0 <= j < |before| && before[j].track == after[i].track
  }

  lemma ListedTail(entries: seq<Subscribers>)
    requires Listed(entries) && entries != []
    ensures Listed(entries[1..]) && NoRepeats(entries[0].ids)
    ensures forall j :: 0 <= j < |entries[1..]| ==> entries[1..][j].track != entries[0].track
    ensures TracksWithin(entries[1..], entries)
  {
    var tail := entries[1..];
    hide NoRepeats;
    assert forall j :: 0 <= j < |tail| ==> tail[j] == entries[j + 1];
  }

  lemma ListedCons(e: Subscribers, rest: seq<Subscribers>)
    requires Listed(rest) && NoRepeats(e.ids)
    requires forall j :: 0 <= j < |rest| ==> rest[j].track != e.track
    ensures Listed([e] + rest)
  {
    hide NoRepeats;
    var r := [e] + rest;
    assert forall j :: 0 < j < |r| ==> r[j] == rest[j - 1];
  }

  lemma WithinCons(e: Subscribers, d: Subscribers, after: seq<Subscribers>, before: seq<Subscribers>)
    requires before != [] && before[0] == d && e.track == d.track && TracksWithin(after, before[1..])
    ensures TracksWithin([e] + after, before)
  {
    var r := [e] + after;
    forall i | 0 <= i < |r|
      ensures exists j :: 0 <= j < |before| && before[j].track == r[i].track
    {
      if i > 0 {
        var j :| 0 <= j < |before[1..]| && before[1..][j].track == after[i - 1].track;
        assert before[j + 1].track == r[i].track;
      }
    }
  }

  lemma {:induction false} UnsubscribeListed(entries: seq<Subscribers>, track: TrackKey, id: Bytes)
    requires Listed(entries)
    ensures Listed(Unsubscribe(entries, track, id))
    ensures TracksWithin(Unsubscribe(entries, track, id), entries)
  {
    if entries != [] {
      var e, tail := entries[0], entries[1..];
      ListedTail(entries);
      WithoutNoRepeats(e.ids, id);
      UnsubscribeListed(tail, track, id);
      hide NoRepeats, Without, Listed;
      if e.track != track {
        var rest := Unsubscribe(tail, track, id);
        assert forall j :: 0 <= j < |rest| ==> rest[j].track != e.track;
        hide TracksWithin;
        ListedCons(e, rest);
        WithinCons(e, e, rest, entries);
      } else {
        var shorter := Subscribers(track, Without(e.ids, id));
        ListedCons(shorter, tail);
        assert TracksWithin(tail, tail);
        WithinCons(shorter, e, tail, entries);
      }
    }
  }

  lemma EndSubscriberTrackInv(s: State, arrived: seq<ObjectFrame>, id: Bytes, track: TrackKey, status: int)
    requires Inv(s, arrived)
    ensures var r := EndSubscriberTrack(s, id, track, status);
      Inv(r, arrived) && Keeps(s.ch, r.ch) && r.sockets == s.sockets && r.cfg == s.cfg
  {
    hide Core, Origin, Listed, Keeps, SweepTrack, Unsubscribe;
    KeepsReflexive(s.ch);
    if id in s.sockets {
      var t := SweepTrack(s, s.sockets[id], track.Alias(), 0);
      SweepTrackCore(s, s.sockets[id], track.Alias(), 0);
      KeepsOrigin(s, t, arrived);
      UnsubscribeListed(s.byTrack, track, id);
      var r := EndSubscriberTrack(s, id, track, status);
      DoneCore(t, DoneMessage(s.sockets[id], track, status), r.byTrack);
      KeepsTransitive(s.ch, t.ch, r.ch);
      KeepsOrigin(t, r, arrived);
    }
  }

  lemma {:induction false} EndTracksInv(s: State, arrived: seq<ObjectFrame>, id: Bytes, tracks: seq<TrackKey>, status: int)
    requires Inv(s, arrived)
    ensures var r := EndTracks(s, id, tracks, status);
      Inv(r, arrived) && Keeps(s.ch, r.ch) && r.sockets == s.sockets && r.cfg == s.cfg
    decreases |tracks|
  {
    hide Inv, Keeps, EndSubscriberTrack;
    KeepsReflexive(s.ch);
    if tracks != [] {
      var t := EndSubscriberTrack(s, id, tracks[0], status);
      EndSubscriberTrackInv(s, arrived, id, tracks[0], status);
      EndTracksInv(t, arrived, id, tracks[1..], status);
      KeepsTransitive(s.ch, t.ch, EndTracks(t, id, tracks[1..], status).ch);
    }
  }

  lemma {:induction false} EndForAllInv(s: State, arrived: seq<ObjectFrame>, ids: seq<Bytes>, track: TrackKey, status: int)
    requires Inv(s, arrived)
    ensures Inv(EndForAll(s, ids, track, status), arrived)
    decreases |ids|
  {
    hide Inv, EndSubscriberTrack;
    if ids != [] {
      EndSubscriberTrackInv(s, arrived, ids[0], track, status);
      EndForAllInv(EndSubscriberTrack(s, ids[0], track, status), arrived, ids[1..], track, status);
    }
  }
}
