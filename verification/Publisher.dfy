/**
 What each event of MoqPublisherApp does to the send-side state (QUIC transport), as functions. The class
 in PublisherApp.dfy is proved to compute them; the theorems about runs are proved here.
 */
module Publisher {
  import opened Bytes
  import opened MoqFraming
  import opened SendQueue

  datatype Key = Key(tid: int, groupId: int, subgroupId: int)

  datatype Track = Track(
    priority: int,
    packetSize: int,
    deliveryTimeout: int,
    objectsPerGroup: int,
    alias: Bytes)
  {
    function PerGroup(): (n: int)
      ensures n >= 1
    {
      if objectsPerGroup > 0 then objectsPerGroup else 1
    }
  }

  /** `chunk` is quicChunkBytes, `queueLimit` QUIC's own limit, `bufferLimit` the limit in objects. */
  datatype Config = Config(tracks: seq<Track>, bufferLimit: int, chunk: int, queueLimit: int)

  /** An object fully written to QUIC whose delivery timeout still runs. */
  datatype Outstanding = Outstanding(key: Key, stream: int, createdAt: int, timeout: int)

  type Counts = map<int, int>

  function Count(m: Counts, k: int): int {
    if k in m then m[k] else 0
  }

  function Bump(m: Counts, k: int): Counts {
    m[k := Count(m, k) + 1]
  }

  /** Per-track counters. `accepted` counts the objects that reached the send path before teardown. */
  datatype Stats = Stats(
    offered: Counts,
    accepted: Counts,
    sent: Counts,
    shedStale: Counts,
    shedOverflow: Counts,
    resetAfterSend: Counts,
    subgroupResets: int,
    shedAtTeardown: int)

  datatype State = State(
    cfg: Config,
    ch: Channel<Key>,
    outstanding: seq<Outstanding>,
    blocked: bool,
    writeEvent: int,
    eventBytes: int,
    ended: bool,
    endTime: int,
    endStatus: int,
    trigger: int,
    next: Counts,
    stats: Stats)
  {
    /** The publisher serves one peer: its queue is that of socket 0. */
    function Buffer(): seq<Item<Key>> {
      ch.Items(0)
    }
  }

  function Initial(cfg: Config): State {
    State(cfg, EmptyChannel({0}, 4), [], false, -1, 0, false, 0, 0, -1, map[],
          Stats(map[], map[], map[], map[], map[], map[], 0, 0))
  }

  // ---- Resetting and tearing down ----

  function ResetSubgroup(s: State, k: Key, stream: int, code: int): State {
    s.(ch := ResetStream(s.ch, k, stream, code),
       stats := s.stats.(subgroupResets := s.stats.subgroupResets + 1))
  }

  predicate KeyLess(a: Key, b: Key) {
    || a.tid < b.tid
    || (a.tid == b.tid && a.groupId < b.groupId)
    || (a.tid == b.tid && a.groupId == b.groupId && a.subgroupId < b.subgroupId)
  }

  predicate IsFirst(k: Key, keys: set<Key>) {
    k in keys && forall j :: j in keys ==> j == k || KeyLess(k, j)
  }

  lemma {:induction false} FirstExists(keys: set<Key>)
    requires keys != {}
    ensures exists k :: IsFirst(k, keys)
    decreases |keys|
  {
    var k :| k in keys;
    if keys == {k} {
      assert IsFirst(k, keys);
    } else {
      var rest := keys - {k};
      assert rest != {};
      FirstExists(rest);
      var j :| IsFirst(j, rest);
      var first := if KeyLess(k, j) then k else j;
      forall m | m in keys
        ensures m == first || KeyLess(first, m)
      {
        assert m == k || m in rest;
      }
      assert IsFirst(first, keys);
    }
  }

  /** Reset every open stream, in key order. */
  ghost function ResetAll(s: State, code: int): State
    decreases |s.ch.open|
  {
    if s.ch.open == map[] then s
    else
      FirstExists(s.ch.open.Keys);
      var k :| IsFirst(k, s.ch.open.Keys);
      assert s.ch.open.Keys == (s.ch.open - {k}).Keys + {k};
      ResetAll(ResetSubgroup(s, k, s.ch.open[k], code), code)
  }

  function CountAll(m: Counts, q: seq<Item<Key>>): Counts
    decreases |q|
  {
    if q == [] then m else CountAll(Bump(m, q[0].key.tid), q[1..])
  }

  function DoneMessages(tracks: seq<Track>, status: int, n: nat): (r: seq<Command>)
    requires n <= |tracks|
    ensures |r| == n
  {
    if n == 0 then []
    else DoneMessages(tracks, status, n - 1) + [PublishDone(0, n - 1, tracks[n - 1].alias, status)]
  }

  /** Discard what is buffered and outstanding, then send one PUBLISH_DONE per track. */
  function Finish(r: State, status: int): State {
    var q := r.Buffer();
    r.(ch := r.ch.(queue := r.ch.queue[0 := []],
                   wire := r.ch.wire + DoneMessages(r.cfg.tracks, status, |r.cfg.tracks|)),
       outstanding := [],
       stats := r.stats.(shedOverflow := CountAll(r.stats.shedOverflow, q),
                         shedAtTeardown := r.stats.shedAtTeardown + |q|))
  }

  /** End every subscription: the streams are reset first. */
  ghost function Terminate(s: State, status: int, tid: int, now: int): State {
    if s.ended then s
    else
      Finish(ResetAll(s.(ended := true, endTime := now, endStatus := status, trigger := tid),
                      MOQ_ERR_SEND_BUFFER_OVERFLOW),
             status)
  }

  // ---- Flushing ----

  ghost predicate Sound(s: State) {
    0 < s.cfg.chunk && AllUnfinished(s.Buffer())
  }

  function ChargeReset(stats: Stats, tid: int, code: int): Stats {
    if code == MOQ_ERR_SEND_BUFFER_OVERFLOW then stats.(shedOverflow := Bump(stats.shedOverflow, tid))
    else stats.(shedStale := Bump(stats.shedStale, tid))
  }

  function ShedFront(s: State): State
    requires s.Buffer() != []
  {
    s.(ch := Drop(s.ch, 0, 0))
  }

  /** The first object's stream was reset: the object went with it, charged to the cause. */
  function FlushAbandoned(s: State): State
    requires s.Buffer() != [] && s.Buffer()[0].key in s.ch.reset
  {
    var item := s.Buffer()[0];
    ShedFront(s.(stats := ChargeReset(s.stats, item.key.tid, s.ch.reset[item.key])))
  }

  /** An object shed as stale is counted; if partly written, it is abandoned by resetting its stream. */
  function Charged(s: State, item: Item<Key>): State {
    var r := if item.sentOffset > 0 then ResetSubgroup(s, item.key, item.stream, MOQ_ERR_DELIVERY_TIMEOUT) else s;
    r.(stats := r.stats.(shedStale := Bump(r.stats.shedStale, item.key.tid)))
  }

  /** The object at `i` outlived its delivery timeout. */
  function ShedStaleAt(s: State, i: nat): State
    requires i < |s.Buffer()|
  {
    var r := Charged(s, s.Buffer()[i]);
    r.(ch := Drop(r.ch, 0, i))
  }

  /** An object complete at `end` stays under its delivery timeout while QUIC delivers it. */
  function OutstandingAfter(os: seq<Outstanding>, item: Item<Key>, end: int): seq<Outstanding> {
    if end == |item.bytes| && item.timeout > 0
    then os + [Outstanding(item.key, item.stream, item.createdAt, item.timeout)] else os
  }

  function StatsAfter(stats: Stats, item: Item<Key>, end: int): Stats {
    if end == |item.bytes| then stats.(sent := Bump(stats.sent, item.key.tid)) else stats
  }

  /** Write the next slice of the first object. */
  function FlushWrite(s: State): State
    requires s.Buffer() != [] && Unfinished(s.Buffer()[0]) && 0 < s.cfg.chunk
  {
    var item := s.Buffer()[0];
    var end := item.sentOffset + ChunkSize(item, s.cfg.chunk);
    s.(ch := WriteFront(s.ch, 0, s.cfg.chunk),
       eventBytes := s.eventBytes + (end - item.sentOffset),
       outstanding := OutstandingAfter(s.outstanding, item, end),
       stats := StatsAfter(s.stats, item, end))
  }

  function FlushStep(s: State, now: int): State
    requires s.Buffer() != [] && Unfinished(s.Buffer()[0]) && 0 < s.cfg.chunk
  {
    if s.Buffer()[0].key in s.ch.reset then FlushAbandoned(s)
    else if s.Buffer()[0].Stale(now) then ShedStaleAt(s, 0)
    else FlushWrite(s)
  }

  /** What flushing leaves alone. */
  predicate SameOffers(s: State, r: State) {
    && r.cfg == s.cfg && r.next == s.next && r.ended == s.ended && r.trigger == s.trigger && r.blocked == s.blocked
    && r.stats.offered == s.stats.offered && r.stats.accepted == s.stats.accepted
  }

  /** The loop of flushSendBuffer. `qlen` is the queue length QUIC reports throughout the event. */
  ghost function FlushLoop(s: State, now: int, qlen: int): (r: State)
    requires Sound(s)
    ensures Sound(r) && SameOffers(s, r)
    decreases Work(s.Buffer())
  {
    if s.blocked || s.Buffer() == [] || qlen + s.eventBytes >= s.cfg.queueLimit then s
    else
      FlushStepShrinks(s, now);
      FlushLoop(FlushStep(s, now), now, qlen)
  }

  function EnterEvent(s: State, now: int): State {
    if s.writeEvent != now then s.(writeEvent := now, eventBytes := 0) else s
  }

  ghost function Flush(s: State, now: int, qlen: int): (r: State)
    requires Sound(s)
    ensures Sound(r) && SameOffers(s, r)
  {
    FlushLoop(EnterEvent(s, now), now, qlen)
  }

  /** Every step drops the first object or writes some of it, so the loop ends. */
  lemma FlushStepShrinks(s: State, now: int)
    requires Sound(s) && s.Buffer() != []
    ensures Sound(FlushStep(s, now)) && SameOffers(s, FlushStep(s, now))
    ensures 0 <= Work(FlushStep(s, now).Buffer()) < Work(s.Buffer())
  {
    var q, q1 := s.Buffer(), FlushStep(s, now).Buffer();
    FlushStepBuffer(s, now);
    FlushStepFrame(s, now);
    hide FlushStep;
    WorkNonNegative(q1);
    if q1 == q[1..] {
    } else {
      assert q1[1..] == q[1..];
    }
  }

  lemma ShedFrame(s: State, i: nat)
    requires i < |s.Buffer()|
    ensures SameOffers(s, ShedStaleAt(s, i))
  {
    hide Drop, Bump;
  }

  lemma AbandonedFrame(s: State)
    requires s.Buffer() != [] && s.Buffer()[0].key in s.ch.reset
    ensures SameOffers(s, FlushAbandoned(s))
  {
  }

  lemma FlushStepFrame(s: State, now: int)
    requires Sound(s) && s.Buffer() != []
    ensures SameOffers(s, FlushStep(s, now))
  {
    ShedFrame(s, 0);
    if s.Buffer()[0].key in s.ch.reset {
      AbandonedFrame(s);
    }
    hide FlushAbandoned, ShedStaleAt, WriteFront;
  }

  lemma FlushStepBuffer(s: State, now: int)
    requires Sound(s) && s.Buffer() != []
    ensures var (q, q1) := (s.Buffer(), FlushStep(s, now).Buffer());
      && (q1 == q[1..] || (|q1| == |q| && q1[1..] == q[1..] && q1[0].bytes == q[0].bytes
                           && q[0].sentOffset < q1[0].sentOffset < |q[0].bytes|))
      && AllUnfinished(q1)
  {
    var q := s.Buffer();
    assert q[1..] == Remove(q, 0);
    if q[0].key !in s.ch.reset && !q[0].Stale(now) {
      FlushWriteBuffer(s);
    }
  }

  lemma FlushWriteBuffer(s: State)
    requires Sound(s) && s.Buffer() != []
    ensures var (q, q1) := (s.Buffer(), FlushWrite(s).Buffer());
      && (q1 == q[1..] || (|q1| == |q| && q1[1..] == q[1..] && q1[0].bytes == q[0].bytes
                           && q[0].sentOffset < q1[0].sentOffset < |q[0].bytes|))
  {
    hide Encode;
    var q, q1 := s.Buffer(), FlushWrite(s).Buffer();
    assert q[1..] == Remove(q, 0);
    assert |q1| == |q| ==> q1[1..] == q[1..];
  }

  // ---- Sweeping ----

  /** sweepSendBufferTimeouts from position `i` on. It does not ask whether a stream was reset already. */
  function SweepFrom(s: State, i: nat, now: int): State
    requires i <= |s.Buffer()|
    decreases |s.Buffer()| - i
  {
    if i == |s.Buffer()| then s
    else if s.Buffer()[i].Stale(now) then SweepFrom(ShedStaleAt(s, i), i, now)
    else SweepFrom(s, i + 1, now)
  }

  function Sweep(s: State, now: int): State {
    if s.ended then s else SweepFrom(s, 0, now)
  }

  /** One entry of the walk over the objects already written to QUIC. */
  function ExpireAt(s: State, i: nat): State
    requires i < |s.outstanding|
  {
    var o := s.outstanding[i];
    var r := ResetSubgroup(s, o.key, o.stream, MOQ_ERR_DELIVERY_TIMEOUT);
    r.(outstanding := Remove(s.outstanding, i), stats := r.stats.(resetAfterSend := Bump(r.stats.resetAfterSend, o.key.tid)))
  }

  function ExpireFrom(s: State, i: nat, now: int): State
    requires i <= |s.outstanding|
    decreases |s.outstanding| - i
  {
    if i == |s.outstanding| then s
    else if s.outstanding[i].key in s.ch.reset then
      ExpireFrom(s.(outstanding := Remove(s.outstanding, i)), i, now)
    else if now - s.outstanding[i].createdAt > s.outstanding[i].timeout then
      ExpireFrom(ExpireAt(s, i), i, now)
    else ExpireFrom(s, i + 1, now)
  }

  function CheckOutstanding(s: State, now: int, qlen: int): State {
    if qlen == 0 then s.(outstanding := []) else ExpireFrom(s, 0, now)
  }

  // ---- Offering ----

  function FrameOf(s: State, tid: int, groupId: int, now: int): ObjectFrame
    requires 0 <= tid < |s.cfg.tracks|
  {
    var t := s.cfg.tracks[tid];
    ObjectFrame(tid, groupId, 0, Count(s.next, tid), t.priority, t.packetSize, now, t.alias)
  }

  /** One more object of track `tid` entered the send path. */
  function Accepted(s: State, tid: int): State {
    s.(stats := s.stats.(accepted := Bump(s.stats.accepted, tid)))
  }

  /** enqueuePending: when the buffer outgrows its limit the subscriptions are over. */
  ghost function Buffered(s: State, k: Key, f: ObjectFrame, timeout: int, now: int): State {
    var r := Accepted(s.(ch := Accept(s.ch, 0, k, f, timeout)), k.tid);
    if |r.Buffer()| <= s.cfg.bufferLimit then r
    else Terminate(r, PUBDONE_TOO_FAR_BEHIND, k.tid, now)
  }

  /** sendObjectFrame over QUIC. */
  ghost function SendObject(s: State, f: ObjectFrame, tid: int, now: int, qlen: int): (r: State)
    requires Sound(s)
    ensures Sound(r) && r.cfg == s.cfg && r.next == s.next && r.stats.offered == s.stats.offered
  {
    var k := Key(tid, f.groupId, f.subgroupId);
    if s.ended then s
    else if k in s.ch.reset then
      Accepted(s.(stats := ChargeReset(s.stats, tid, s.ch.reset[k])), tid)
    else
      var timeout := if 0 <= tid < |s.cfg.tracks| then s.cfg.tracks[tid].deliveryTimeout else 0;
      BufferedSound(s, k, f, timeout, now);
      Flush(Buffered(s, k, f, timeout, now), now, qlen)
  }

  lemma {:induction false} ResetAllKeepsQueue(s: State, code: int)
    ensures var r := ResetAll(s, code);
      && r.ch.queue == s.ch.queue && r.ch.hist == s.ch.hist && r.ch.open == map[] && r.ch.nextId == s.ch.nextId
      && r == s.(ch := r.ch, stats := s.stats.(subgroupResets := r.stats.subgroupResets))
    decreases |s.ch.open|
  {
    if s.ch.open != map[] {
      FirstExists(s.ch.open.Keys);
      var k :| IsFirst(k, s.ch.open.Keys) &&
        ResetAll(s, code) == ResetAll(ResetSubgroup(s, k, s.ch.open[k], code), code);
      assert s.ch.open.Keys == (s.ch.open - {k}).Keys + {k};
      ResetAllKeepsQueue(ResetSubgroup(s, k, s.ch.open[k], code), code);
    }
  }

  lemma BufferedSound(s: State, k: Key, f: ObjectFrame, timeout: int, now: int)
    requires Sound(s)
    ensures var r := Buffered(s, k, f, timeout, now);
      && Sound(r) && r.cfg == s.cfg && r.next == s.next
      && r.stats.offered == s.stats.offered && r.stats.accepted == Bump(s.stats.accepted, k.tid)
  {
    hide Encode;
    var r := Accepted(s.(ch := Accept(s.ch, 0, k, f, timeout)), k.tid);
    assert Sound(r);
    if |r.Buffer()| > s.cfg.bufferLimit && !s.ended {
      ResetAllKeepsQueue(r.(ended := true, endTime := now, endStatus := PUBDONE_TOO_FAR_BEHIND, trigger := k.tid),
                         MOQ_ERR_SEND_BUFFER_OVERFLOW);
    }
  }

  /** One object of a group burst. */
  ghost function OfferOne(s: State, tid: int, groupId: int, now: int, qlen: int): (r: State)
    requires Sound(s) && 0 <= tid < |s.cfg.tracks|
    ensures Sound(r) && r.cfg == s.cfg
  {
    var f := FrameOf(s, tid, groupId, now);
    var r := SendObject(s.(next := Bump(s.next, tid)), f, tid, now, qlen);
    r.(stats := r.stats.(offered := Bump(r.stats.offered, tid)))
  }

  /** The rest of a group burst, `n` objects. */
  ghost function OfferMany(s: State, tid: int, groupId: int, n: nat, now: int, qlen: int): (r: State)
    requires Sound(s) && 0 <= tid < |s.cfg.tracks|
    ensures Sound(r) && r.cfg == s.cfg
    decreases n
  {
    if n == 0 then s else OfferMany(OfferOne(s, tid, groupId, now, qlen), tid, groupId, n - 1, now, qlen)
  }

  // ---- Events ----

  /** `qlen` is what QUIC reports as its queue length while the event runs. */
  datatype Event =
    | Group(tid: int, now: int, qlen: int)
    | TimeoutCheck(now: int, qlen: int)
    | QueueFull
    | QueueDrained(now: int, qlen: int)

  /** The track timer: emit one group, a burst of objects sharing one subgroup stream. */
  ghost function OfferGroup(s: State, tid: int, now: int, qlen: int): (r: State)
    requires Sound(s)
    ensures Sound(r)
  {
    if s.ended || !(0 <= tid < |s.cfg.tracks|) then s
    else
      var n := s.cfg.tracks[tid].PerGroup();
      OfferMany(s, tid, Count(s.next, tid) / n, n, now, qlen)
  }

  lemma {:induction false} SweepFromSound(s: State, i: nat, now: int)
    requires Sound(s) && i <= |s.Buffer()|
    ensures Sound(SweepFrom(s, i, now))
    decreases |s.Buffer()| - i
  {
    if i < |s.Buffer()| {
      if s.Buffer()[i].Stale(now) {
        SweepFromSound(ShedStaleAt(s, i), i, now);
      } else {
        SweepFromSound(s, i + 1, now);
      }
    }
  }

  lemma {:induction false} ExpireFromSound(s: State, i: nat, now: int)
    requires Sound(s) && i <= |s.outstanding|
    ensures Sound(ExpireFrom(s, i, now))
    decreases |s.outstanding| - i
  {
    if i < |s.outstanding| {
      if s.outstanding[i].key in s.ch.reset {
        ExpireFromSound(s.(outstanding := Remove(s.outstanding, i)), i, now);
      } else if now - s.outstanding[i].createdAt > s.outstanding[i].timeout {
        ExpireFromSound(ExpireAt(s, i), i, now);
      } else {
        ExpireFromSound(s, i + 1, now);
      }
    }
  }

  ghost function OnTimeoutCheck(s: State, now: int, qlen: int): (r: State)
    requires Sound(s)
    ensures Sound(r)
  {
    var s1 := CheckOutstanding(s, now, qlen);
    ExpireFromSound(s, 0, now);
    assert Sound(s1);
    SweepFromSound(s1, 0, now);
    Flush(Sweep(s1, now), now, qlen)
  }

  ghost function Step(s: State, e: Event): (r: State)
    requires Sound(s)
    ensures Sound(r)
  {
    match e
    case Group(tid, now, qlen) => OfferGroup(s, tid, now, qlen)
    case TimeoutCheck(now, qlen) => OnTimeoutCheck(s, now, qlen)
    case QueueFull => s.(blocked := true)
    case QueueDrained(now, qlen) => Flush(s.(blocked := false), now, qlen)
  }

  ghost function Run(s: State, es: seq<Event>): (r: State)
    requires Sound(s)
    ensures Sound(r)
    decreases |es|
  {
    if es == [] then s else Run(Step(s, es[0]), es[1..])
  }
}
