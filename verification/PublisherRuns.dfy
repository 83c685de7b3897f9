/** Theorems about every run of the publisher: any number of events of any kind, in any order. */
module PublisherRuns {
  import opened Bytes
  import opened ByteStream
  import opened MoqFraming
  import opened SendQueue
  import opened Publisher
  import opened PublisherInvariant

  /** The object that will be offered `i` places after the next one. */
  function FrameAhead(s: State, tid: int, groupId: int, now: int, i: int): ObjectFrame
    requires 0 <= tid < |s.cfg.tracks|
  {
    FrameOf(s, tid, groupId, now).(objectId := Count(s.next, tid) + i)
  }

  /** The C++ integers can hold the fields of the next `n` objects of a track, and a frame its length. */
  ghost predicate Fits(s: State, tid: int, groupId: int, n: nat, now: int)
    requires 0 <= tid < |s.cfg.tracks|
  {
    forall i :: 0 <= i < n ==> Framable(FrameAhead(s, tid, groupId, now, i))
  }

  ghost predicate EventFits(s: State, e: Event) {
    e.Group? && 0 <= e.tid < |s.cfg.tracks| ==>
      var n := s.cfg.tracks[e.tid].PerGroup();
      Fits(s, e.tid, Count(s.next, e.tid) / n, n, e.now)
  }

  ghost predicate RunFits(s: State, es: seq<Event>)
    requires Sound(s)
    decreases |es|
  {
    es == [] || (EventFits(s, es[0]) && RunFits(Step(s, es[0]), es[1..]))
  }

  // ---- The invariant along a run ----

  lemma NextObjectOf(s: State, tid: int, groupId: int, now: int)
    requires Inv(s) && 0 <= tid < |s.cfg.tracks| && Framable(FrameOf(s, tid, groupId, now))
    ensures var r := s.(next := Bump(s.next, tid));
      NextObject(r, Key(tid, groupId, 0), FrameOf(s, tid, groupId, now)) && Inv(r) && r.Buffer() == s.Buffer()
  {
    var f := FrameOf(s, tid, groupId, now);
    var r := s.(next := Bump(s.next, tid));
    hide Framable, SendQueue.Valid, Accounted;
    assert Tracks(s);
    forall id | id in r.ch.hist && r.ch.hist[id].key.tid == tid
      ensures Below(r.ch.hist[id].offered, f.objectId)
    {
      assert StreamOfTrack(s, s.ch.hist[id]);
    }
    hide Inv;
    AdvanceInv(s, tid);
  }

  lemma OfferOneInv(s: State, tid: int, groupId: int, now: int, qlen: int)
    requires Inv(s) && Sound(s) && 0 <= tid < |s.cfg.tracks| && Framable(FrameOf(s, tid, groupId, now))
    ensures Inv(OfferOne(s, tid, groupId, now, qlen))
  {
    hide Inv, NextObject, Framable;
    var f := FrameOf(s, tid, groupId, now);
    var r := s.(next := Bump(s.next, tid));
    NextObjectOf(s, tid, groupId, now);
    SendObjectInv(r, f, tid, now, qlen);
    var q := SendObject(r, f, tid, now, qlen);
    OfferedInv(q, Bump(q.stats.offered, tid));
  }

  lemma OfferOneAdvances(s: State, tid: int, groupId: int, now: int, qlen: int)
    requires Sound(s) && 0 <= tid < |s.cfg.tracks|
    ensures OfferOne(s, tid, groupId, now, qlen).next == Bump(s.next, tid)
  {
  }

  lemma {:induction false} OfferManyInv(s: State, tid: int, groupId: int, n: nat, now: int, qlen: int)
    requires Inv(s) && Sound(s) && 0 <= tid < |s.cfg.tracks| && Fits(s, tid, groupId, n, now)
    ensures Inv(OfferMany(s, tid, groupId, n, now, qlen))
    decreases n
  {
    hide Inv, Framable, OfferOne;
    if n > 0 {
      assert FrameAhead(s, tid, groupId, now, 0) == FrameOf(s, tid, groupId, now);
      OfferOneInv(s, tid, groupId, now, qlen);
      var one := OfferOne(s, tid, groupId, now, qlen);
      OfferOneAdvances(s, tid, groupId, now, qlen);
      forall i | 0 <= i < n - 1
        ensures Framable(FrameAhead(one, tid, groupId, now, i))
      {
        assert FrameAhead(one, tid, groupId, now, i) == FrameAhead(s, tid, groupId, now, i + 1);
      }
      OfferManyInv(one, tid, groupId, n - 1, now, qlen);
    }
  }

  lemma StepInv(s: State, e: Event)
    requires Inv(s) && Sound(s) && EventFits(s, e)
    ensures Inv(Step(s, e))
  {
    hide Inv, OfferMany;
    match e
    case Group(tid, now, qlen) =>
      if 0 <= tid < |s.cfg.tracks| {
        var n := s.cfg.tracks[tid].PerGroup();
        OfferManyInv(s, tid, Count(s.next, tid) / n, n, now, qlen);
      }
    case TimeoutCheck(now, qlen) =>
      CheckOutstandingInv(s, now, qlen);
      var s1 := CheckOutstanding(s, now, qlen);
      ExpireFromSound(s, 0, now);
      SweepFromSound(s1, 0, now);
      SweepFromInv(s1, 0, now);
      FlushInv(Sweep(s1, now), now, qlen);
    case QueueFull =>
      PacingInv(s, true, s.writeEvent, s.eventBytes);
    case QueueDrained(now, qlen) =>
      PacingInv(s, false, s.writeEvent, s.eventBytes);
      FlushInv(s.(blocked := false), now, qlen);
  }

  /** Every reachable state satisfies the invariant. */
  lemma {:induction false} RunInv(s: State, es: seq<Event>)
    requires Inv(s) && Sound(s) && RunFits(s, es)
    ensures Inv(Run(s, es))
    decreases |es|
  {
    hide Inv, Sound, EventFits, Step;
    if es != [] {
      StepInv(s, es[0]);
      RunInv(Step(s, es[0]), es[1..]);
    }
  }

  // ---- Conservation ----

  /** Objects offered and objects that reached the send path agree until teardown. The burst that trips
      the limit goes on counting its remaining objects as offered: fewer than one group of them. */
  ghost predicate Offers(s: State, unsent: int) {
    if s.ended then
      && 0 <= Count(s.stats.offered, s.trigger) - Count(s.stats.accepted, s.trigger) <= unsent
      && forall t :: t != s.trigger ==> Count(s.stats.offered, t) == Count(s.stats.accepted, t)
    else
      forall t :: Count(s.stats.offered, t) == Count(s.stats.accepted, t)
  }

  ghost predicate Shortfall(s: State) {
    if s.ended then
      0 <= s.trigger < |s.cfg.tracks| && Offers(s, s.cfg.tracks[s.trigger].PerGroup() - 1)
    else
      Offers(s, 0)
  }

  lemma OfferOneOffers(s: State, tid: int, groupId: int, now: int, qlen: int)
    requires Sound(s) && 0 <= tid < |s.cfg.tracks|
    ensures var r := OfferOne(s, tid, groupId, now, qlen);
      && r.stats.offered == Bump(s.stats.offered, tid)
      && (s.ended ==> r.ended && r.trigger == s.trigger && r.stats.accepted == s.stats.accepted)
      && (!s.ended ==> r.stats.accepted == Bump(s.stats.accepted, tid) && (r.ended ==> r.trigger == tid))
  {
    hide Encode, Accept, AllUnfinished;
    var f, k := FrameOf(s, tid, groupId, now), Key(tid, groupId, 0);
    var s1 := s.(next := Bump(s.next, tid));
    var timeout := s.cfg.tracks[tid].deliveryTimeout;
    if !s.ended && k !in s1.ch.reset {
      BufferedSound(s1, k, f, timeout, now);
      BufferedEnds(s1, k, f, timeout, now);
      hide Buffered, Terminate, FlushLoop;
      var b := Buffered(s1, k, f, timeout, now);
      assert SendObject(s1, f, tid, now, qlen) == Flush(b, now, qlen);
    }
  }

  lemma BumpCounts(m: Counts, k: int)
    ensures forall t :: Count(Bump(m, k), t) == Count(m, t) + (if t == k then 1 else 0)
  {
  }

  lemma BufferedEnds(s: State, k: Key, f: ObjectFrame, timeout: int, now: int)
    requires !s.ended
    ensures var r := Buffered(s, k, f, timeout, now);
      r.ended ==> r.trigger == k.tid
  {
    hide Encode, Accept;
    var r := Accepted(s.(ch := Accept(s.ch, 0, k, f, timeout)), k.tid);
    var r1 := r.(ended := true, endTime := now, endStatus := PUBDONE_TOO_FAR_BEHIND, trigger := k.tid);
    ResetAllKeepsQueue(r1, MOQ_ERR_SEND_BUFFER_OVERFLOW);
  }

  lemma {:induction false} OfferManyOffers(s: State, tid: int, groupId: int, n: nat, now: int, qlen: int, total: int)
    requires Sound(s) && 0 <= tid < |s.cfg.tracks| && n <= total
    requires Offers(s, total - 1 - n) && (s.ended ==> s.trigger == tid)
    ensures var r := OfferMany(s, tid, groupId, n, now, qlen);
      Offers(r, total - 1) && (r.ended ==> r.trigger == tid)
    decreases n
  {
    hide OfferOne, Sound;
    if n > 0 {
      OfferOneOffers(s, tid, groupId, now, qlen);
      BumpCounts(s.stats.offered, tid);
      BumpCounts(s.stats.accepted, tid);
      OfferManyOffers(OfferOne(s, tid, groupId, now, qlen), tid, groupId, n - 1, now, qlen, total);
    }
  }

  lemma {:induction false} ExpireKeepsOffers(s: State, i: nat, now: int)
    requires i <= |s.outstanding|
    ensures SameOffers(s, ExpireFrom(s, i, now))
    decreases |s.outstanding| - i
  {
    if i < |s.outstanding| {
      if s.outstanding[i].key in s.ch.reset {
        ExpireKeepsOffers(s.(outstanding := Remove(s.outstanding, i)), i, now);
      } else if now - s.outstanding[i].createdAt > s.outstanding[i].timeout {
        ExpireKeepsOffers(ExpireAt(s, i), i, now);
      } else {
        ExpireKeepsOffers(s, i + 1, now);
      }
    }
  }

  lemma {:induction false} SweepKeepsOffers(s: State, i: nat, now: int)
    requires i <= |s.Buffer()|
    ensures SameOffers(s, SweepFrom(s, i, now))
    decreases |s.Buffer()| - i
  {
    if i < |s.Buffer()| {
      if s.Buffer()[i].Stale(now) {
        SweepKeepsOffers(ShedStaleAt(s, i), i, now);
      } else {
        SweepKeepsOffers(s, i + 1, now);
      }
    }
  }

  lemma TimeoutCheckKeepsOffers(s: State, now: int, qlen: int)
    requires Sound(s)
    ensures SameOffers(s, OnTimeoutCheck(s, now, qlen))
  {
    hide FlushLoop, AllUnfinished;
    var s1 := CheckOutstanding(s, now, qlen);
    ExpireKeepsOffers(s, 0, now);
    SweepKeepsOffers(s1, 0, now);
    ExpireFromSound(s, 0, now);
    SweepFromSound(s1, 0, now);
  }

  lemma OfferGroupKeepsConfig(s: State, tid: int, now: int, qlen: int)
    requires Sound(s)
    ensures OfferGroup(s, tid, now, qlen).cfg == s.cfg
  {
  }

  lemma StepShortfall(s: State, e: Event)
    requires Sound(s) && Shortfall(s)
    ensures Shortfall(Step(s, e)) && Step(s, e).cfg == s.cfg
  {
    hide OfferMany, FlushLoop, AllUnfinished;
    match e
    case Group(tid, now, qlen) =>
      OfferGroupKeepsConfig(s, tid, now, qlen);
      if !s.ended && 0 <= tid < |s.cfg.tracks| {
        var n := s.cfg.tracks[tid].PerGroup();
        OfferManyOffers(s, tid, Count(s.next, tid) / n, n, now, qlen, n);
      }
    case TimeoutCheck(now, qlen) =>
      TimeoutCheckKeepsOffers(s, now, qlen);
    case QueueFull =>
    case QueueDrained(now, qlen) =>
      assert SameOffers(s.(blocked := false), Flush(s.(blocked := false), now, qlen));
  }

  lemma {:induction false} RunShortfall(s: State, es: seq<Event>)
    requires Sound(s) && Shortfall(s)
    ensures Shortfall(Run(s, es)) && Run(s, es).cfg == s.cfg
    decreases |es|
  {
    hide Shortfall, Step, AllUnfinished;
    if es != [] {
      StepShortfall(s, es[0]);
      RunShortfall(Step(s, es[0]), es[1..]);
    }
  }

  /** Conservation over every run, per track: what was offered was fully sent, shed past its delivery
      timeout, shed by the overflow teardown, or is still buffered. Only the track whose burst tripped the
      limit offers more than that, by less than one group. */
  lemma Conservation(cfg: Config, es: seq<Event>, t: int)
    requires 0 < cfg.chunk && RunFits(Initial(cfg), es)
    ensures var s := Run(Initial(cfg), es);
      var kept := Count(s.stats.sent, t) + Count(s.stats.shedStale, t) + Count(s.stats.shedOverflow, t)
                  + InBuffer(s.Buffer(), t);
      if s.ended && t == s.trigger then
        0 <= t < |cfg.tracks| && 0 <= Count(s.stats.offered, t) - kept < cfg.tracks[t].PerGroup()
      else Count(s.stats.offered, t) == kept
  {
    hide RunFits, SendQueue.Valid, Step;
    InitialInv(cfg);
    RunInv(Initial(cfg), es);
    RunShortfall(Initial(cfg), es);
  }

  // ---- Teardown ----

  /** PUBLISH_DONE comes last. Once a run has ended the subscriptions, every stream it ever opened was
      reset before the first PUBLISH_DONE, each track got exactly one, in order, and nothing follows. */
  lemma TeardownOrder(cfg: Config, es: seq<Event>)
    requires 0 < cfg.chunk && RunFits(Initial(cfg), es) && Run(Initial(cfg), es).ended
    ensures var s := Run(Initial(cfg), es);
      var (w, n) := (s.ch.wire, |cfg.tracks|);
      && n <= |w| && s.Buffer() == []
      && (forall i :: 0 <= i < |w| - n ==> !w[i].PublishDone?)
      && (forall t :: 0 <= t < n ==> w[|w| - n + t] == PublishDone(0, t, cfg.tracks[t].alias, s.endStatus))
      && (forall id :: id in s.ch.hist ==> exists i :: 0 <= i < |w| - n && w[i].Reset? && w[i].stream == id)
  {
    hide RunFits, Inv, Step, Run;
    InitialInv(cfg);
    RunInv(Initial(cfg), es);
    RunShortfall(Initial(cfg), es);
    EndedInOrder(Run(Initial(cfg), es));
  }

  lemma EndedInOrder(s: State)
    requires Inv(s) && s.ended
    ensures var (w, n) := (s.ch.wire, |s.cfg.tracks|);
      && n <= |w| && s.Buffer() == []
      && (forall i :: 0 <= i < |w| - n ==> !w[i].PublishDone?)
      && (forall t :: 0 <= t < n ==> w[|w| - n + t] == PublishDone(0, t, s.cfg.tracks[t].alias, s.endStatus))
      && (forall id :: id in s.ch.hist ==> exists i :: 0 <= i < |w| - n && w[i].Reset? && w[i].stream == id)
  {
    hide SendQueue.Valid, Accounted, Tracks, Balanced, Causes;
    var w, n := s.ch.wire, |s.cfg.tracks|;
    DoneMessagesShape(s.cfg.tracks, s.endStatus, n);
    forall id | id in s.ch.hist
      ensures exists i :: 0 <= i < |w| - n && w[i].Reset? && w[i].stream == id
    {
      assert WasReset(w[..|w| - n], id);
      var i :| 0 <= i < |w| - n && w[..|w| - n][i].Reset? && w[..|w| - n][i].stream == id;
      assert w[i] == w[..|w| - n][i];
    }
  }

  /** After the teardown nothing is offered, queued or written any more. */
  lemma SilentAfterTeardown(s: State, e: Event)
    requires Inv(s) && Sound(s) && s.ended
    ensures Step(s, e).ch == s.ch && Step(s, e).stats == s.stats && Step(s, e).ended
  {
    hide SendQueue.Valid, Accounted, Tracks, Balanced, Causes;
    assert s.Buffer() == [] && s.outstanding == [];
    assert forall now, qlen :: CheckOutstanding(s, now, qlen) == s;
  }

  /** A track without a delivery timeout loses nothing before the teardown: all it accepted is sent or
      waits in the buffer, and none of its streams is reset. */
  lemma ReliableTrackLosesNothing(cfg: Config, es: seq<Event>, t: int)
    requires 0 < cfg.chunk && RunFits(Initial(cfg), es)
    requires 0 <= t < |cfg.tracks| && cfg.tracks[t].deliveryTimeout <= 0 && !Run(Initial(cfg), es).ended
    ensures var s := Run(Initial(cfg), es);
      && Count(s.stats.offered, t) == Count(s.stats.sent, t) + InBuffer(s.Buffer(), t)
      && forall id :: id in s.ch.hist && s.ch.hist[id].key.tid == t ==>
           s.ch.IsOpen(id) && NeverReset(s.ch.wire, id)
  {
    hide RunFits, Queues, Wire, Step;
    InitialInv(cfg);
    RunInv(Initial(cfg), es);
    RunShortfall(Initial(cfg), es);
    var s := Run(Initial(cfg), es);
    assert !TimedTrack(s, t);
  }

  // ---- Streams ----

  /** Stream ids are positive multiples of 4, one stream belongs to one subgroup and a subgroup never
      has a second stream; no data follows a reset. */
  lemma StreamDiscipline(cfg: Config, es: seq<Event>)
    requires 0 < cfg.chunk && RunFits(Initial(cfg), es)
    ensures var c := Run(Initial(cfg), es).ch;
      && (forall id :: id in c.hist ==> 4 <= id && id % 4 == 0)
      && (forall a, b :: a in c.hist && b in c.hist && c.hist[a].key == c.hist[b].key ==> a == b)
      && c.open.Keys !! c.reset.Keys
      && NoSendAfterReset(c.wire)
  {
    hide RunFits, Queues, Wire, Step;
    InitialInv(cfg);
    RunInv(Initial(cfg), es);
    var c := Run(Initial(cfg), es).ch;
    assert Accounted(c);
    forall k | k in c.open
      ensures k !in c.reset
    {
    }
  }

  /** Nothing that waits is more urgent than `item`, and nothing of its stream comes before it. */
  ghost predicate MostUrgent(q: seq<Item<Key>>, item: Item<Key>) {
    && item in q
    && forall other :: other in q ==>
         item.priority <= other.priority
         && (other.stream == item.stream ==> other == item || item.frame.objectId < other.frame.objectId)
  }

  /** `cmd` writes the next slice of the object on its stream, where it left off. */
  predicate Continues(cmd: Command, item: Item<Key>, chunk: int) {
    && cmd.Send? && cmd.stream == item.stream && cmd.priority == QuicPriorityOf(item.priority)
    && 0 < |cmd.bytes| <= chunk && item.sentOffset + |cmd.bytes| <= |Encode(item.frame)|
    && cmd.bytes == Encode(item.frame)[item.sentOffset..item.sentOffset + |cmd.bytes|]
  }

  /** A turn of the flush loop gives at most one command; if that writes data, it is the next slice of the
      most urgent object waiting, in the object order of its stream. */
  lemma MostUrgentFirst(s: State, now: int)
    requires Inv(s) && Sound(s) && s.Buffer() != []
    ensures var r := FlushStep(s, now);
      || r.ch.wire == s.ch.wire
      || exists cmd :: r.ch.wire == s.ch.wire + [cmd]
           && (cmd.Reset? || exists item :: MostUrgent(s.Buffer(), item) && Continues(cmd, item, s.cfg.chunk))
  {
    FirstIsMostUrgent(s);
    FirstIsWritten(s);
    var item := s.Buffer()[0];
    assert item.key !in s.ch.reset && !item.Stale(now) ==>
      FlushStep(s, now).ch.wire == s.ch.wire + [SliceCommand(item, s.cfg.chunk)];
    hide MostUrgent, Continues, Inv, SliceCommand;
  }

  lemma FirstIsMostUrgent(s: State)
    requires Inv(s) && s.Buffer() != []
    ensures MostUrgent(s.Buffer(), s.Buffer()[0])
  {
    hide Books, Accounted, Wire, Discipline, Streams, ItemOk;
    var q := s.Buffer();
    assert Ordered(q);
    forall i | 0 < i < |q|
      ensures q[0].priority <= q[i].priority && (q[i].stream == q[0].stream ==> q[0].frame.objectId < q[i].frame.objectId)
    {
      assert InOrder(q[0], q[i]);
    }
  }

  lemma FirstIsWritten(s: State)
    requires Inv(s) && Sound(s) && s.Buffer() != []
    ensures Continues(SliceCommand(s.Buffer()[0], s.cfg.chunk), s.Buffer()[0], s.cfg.chunk)
  {
    hide Books, Accounted, Wire, Discipline, Streams, Encode;
    assert ItemOk(s.ch, 0, s.Buffer()[0]);
  }

  /** In every reachable state, for every stream ever opened, what any receiver has parsed from the bytes
      delivered so far are objects of that subgroup as they were offered, each whole, in ascending id. */
  lemma ReceiverNeverDesynchronised(cfg: Config, es: seq<Event>, id: int, packets: seq<Bytes>)
    requires 0 < cfg.chunk && RunFits(Initial(cfg), es)
    requires id in Run(Initial(cfg), es).ch.hist
    requires Concat(packets) <= StreamBytes(Run(Initial(cfg), es).ch.wire, id)
    ensures var h := Run(Initial(cfg), es).ch.hist[id];
      var (got, rest) := Feed(TryParse, [], packets);
      && h.off <= |Encode(h.part)| && got <= h.sent && AscendingIds(got)
      && (forall f :: f in got ==>
            f in h.offered && f.trackId == h.key.tid && f.groupId == h.key.groupId && f.subgroupId == h.key.subgroupId)
      && (Concat(packets) == StreamBytes(Run(Initial(cfg), es).ch.wire, id) ==>
            got == h.sent && rest == Encode(h.part)[..h.off])
  {
    InitialInv(cfg);
    hide RunFits, SendQueue.Valid, Step, Encode, StreamBytes, Accounted, Balanced, Causes, Teardown;
    RunInv(Initial(cfg), es);
    var s := Run(Initial(cfg), es);
    NeverDesynchronised(s.ch, id, packets);
    assert StreamOfTrack(s, s.ch.hist[id]);
  }

  // ---- What is never taken back ----

  /** From `c` to `d` nothing recorded is changed: commands, streams and their owners, whole objects
      written, and why a stream was reset. */
  ghost predicate Grows(c: Channel<Key>, d: Channel<Key>) {
    && c.wire <= d.wire
    && (forall k :: k in c.reset ==> k in d.reset && d.reset[k] == c.reset[k])
    && (forall id :: id in c.hist ==>
          id in d.hist && d.hist[id].key == c.hist[id].key && c.hist[id].sent <= d.hist[id].sent)
  }

  lemma GrowsTransitive(a: Channel<Key>, b: Channel<Key>, c: Channel<Key>)
    requires Grows(a, b) && Grows(b, c)
    ensures Grows(a, c)
  {
  }

  lemma ShedStaleGrows(s: State, i: nat)
    requires Inv(s) && i < |s.Buffer()|
    ensures Grows(s.ch, ShedStaleAt(s, i).ch)
  {
    hide SendQueue.Valid, Accounted, Tracks, Balanced;
    assert !s.ended;
  }

  lemma FlushWriteGrows(s: State)
    requires s.Buffer() != [] && Unfinished(s.Buffer()[0]) && 0 < s.cfg.chunk
    ensures Grows(s.ch, FlushWrite(s).ch)
  {
    WriteFrontShape(s.ch, 0, s.cfg.chunk);
    FlushWriteShape(s);
    hide WriteFront, FlushWrite;
  }

  lemma FlushStepGrows(s: State, now: int)
    requires Inv(s) && Sound(s) && s.Buffer() != []
    ensures Grows(s.ch, FlushStep(s, now).ch)
  {
    hide Inv;
    if s.Buffer()[0].key !in s.ch.reset {
      if s.Buffer()[0].Stale(now) {
        ShedStaleGrows(s, 0);
      } else {
        FlushWriteGrows(s);
      }
    }
  }

  lemma {:induction false} FlushLoopGrows(s: State, now: int, qlen: int)
    requires Inv(s) && Sound(s)
    ensures Grows(s.ch, FlushLoop(s, now, qlen).ch)
    decreases Work(s.Buffer())
  {
    hide Inv, FlushStep;
    if !(s.blocked || s.Buffer() == [] || qlen + s.eventBytes >= s.cfg.queueLimit) {
      FlushStepShrinks(s, now);
      FlushStepInv(s, now);
      FlushStepGrows(s, now);
      FlushLoopGrows(FlushStep(s, now), now, qlen);
      GrowsTransitive(s.ch, FlushStep(s, now).ch, FlushLoop(s, now, qlen).ch);
    }
  }

  lemma FlushGrows(s: State, now: int, qlen: int)
    requires Inv(s) && Sound(s)
    ensures Grows(s.ch, Flush(s, now, qlen).ch)
  {
    hide Inv;
    PacingInv(s, s.blocked, now, 0);
    FlushLoopGrows(EnterEvent(s, now), now, qlen);
  }

  lemma {:induction false} ExpireGrows(s: State, i: nat, now: int)
    requires Inv(s) && i <= |s.outstanding|
    ensures Grows(s.ch, ExpireFrom(s, i, now).ch)
    decreases |s.outstanding| - i
  {
    hide Inv;
    if i < |s.outstanding| {
      if s.outstanding[i].key in s.ch.reset {
        RemoveOutstandingInv(s, i, s.stats.resetAfterSend);
        var r := s.(outstanding := Remove(s.outstanding, i));
        assert r == s.(outstanding := Remove(s.outstanding, i), stats := s.stats.(resetAfterSend := s.stats.resetAfterSend));
        ExpireGrows(r, i, now);
      } else if now - s.outstanding[i].createdAt > s.outstanding[i].timeout {
        ExpireAtInv(s, i);
        ExpireGrows(ExpireAt(s, i), i, now);
        GrowsTransitive(s.ch, ExpireAt(s, i).ch, ExpireFrom(s, i, now).ch);
      } else {
        ExpireGrows(s, i + 1, now);
      }
    }
  }

  lemma {:induction false} SweepGrows(s: State, i: nat, now: int)
    requires Inv(s) && i <= |s.Buffer()|
    ensures Grows(s.ch, SweepFrom(s, i, now).ch)
    decreases |s.Buffer()| - i
  {
    hide Inv;
    if i < |s.Buffer()| {
      if s.Buffer()[i].Stale(now) {
        ShedStaleAtInv(s, i, now);
        ShedStaleGrows(s, i);
        SweepGrows(ShedStaleAt(s, i), i, now);
        GrowsTransitive(s.ch, ShedStaleAt(s, i).ch, SweepFrom(s, i, now).ch);
      } else {
        SweepGrows(s, i + 1, now);
      }
    }
  }

  lemma {:induction false} ResetAllGrows(s: State, code: int)
    requires s.ch.open.Keys !! s.ch.reset.Keys
    ensures Grows(s.ch, ResetAll(s, code).ch)
    decreases |s.ch.open|
  {
    if s.ch.open != map[] {
      FirstExists(s.ch.open.Keys);
      var k :| IsFirst(k, s.ch.open.Keys) &&
        ResetAll(s, code) == ResetAll(ResetSubgroup(s, k, s.ch.open[k], code), code);
      assert s.ch.open.Keys == (s.ch.open - {k}).Keys + {k};
      var r := ResetSubgroup(s, k, s.ch.open[k], code);
      ResetOneGrows(s, k, code);
      hide Grows, ResetSubgroup;
      ResetAllGrows(r, code);
      GrowsTransitive(s.ch, r.ch, ResetAll(s, code).ch);
    }
  }

  lemma ResetOneGrows(s: State, k: Key, code: int)
    requires s.ch.open.Keys !! s.ch.reset.Keys && k in s.ch.open
    ensures var r := ResetSubgroup(s, k, s.ch.open[k], code);
      Grows(s.ch, r.ch) && r.ch.open == s.ch.open - {k} && r.ch.open.Keys !! r.ch.reset.Keys
  {
  }

  lemma TerminateGrows(s: State, status: int, tid: int, now: int)
    requires s.ch.open.Keys !! s.ch.reset.Keys
    ensures Grows(s.ch, Terminate(s, status, tid, now).ch)
  {
    if !s.ended {
      var s1 := s.(ended := true, endTime := now, endStatus := status, trigger := tid);
      ResetAllGrows(s1, MOQ_ERR_SEND_BUFFER_OVERFLOW);
    }
  }

  lemma QueuedGrows(s: State, k: Key, f: ObjectFrame)
    requires Streams(s.ch) && k !in s.ch.reset && 0 <= k.tid < |s.cfg.tracks|
    ensures Grows(s.ch, Queued(s, k, f).ch) && Queued(s, k, f).ch.open.Keys !! s.ch.reset.Keys
    ensures Queued(s, k, f).ch.reset == s.ch.reset
  {
    hide Insert, Encode;
  }

  lemma BufferedGrows(s: State, k: Key, f: ObjectFrame, timeout: int, now: int)
    requires Streams(s.ch) && k !in s.ch.reset && 0 <= k.tid < |s.cfg.tracks|
    requires timeout == s.cfg.tracks[k.tid].deliveryTimeout
    ensures Grows(s.ch, Buffered(s, k, f, timeout, now).ch)
  {
    hide Accept, Insert, Encode, Grows, Terminate;
    QueuedGrows(s, k, f);
    var r := Queued(s, k, f);
    TerminateGrows(r, PUBDONE_TOO_FAR_BEHIND, k.tid, now);
    if |r.Buffer()| > s.cfg.bufferLimit {
      GrowsTransitive(s.ch, r.ch, Terminate(r, PUBDONE_TOO_FAR_BEHIND, k.tid, now).ch);
    }
  }

  lemma InvStreams(s: State)
    requires Inv(s)
    ensures Streams(s.ch)
  {
    hide Queues, Wire, Discipline, Accounted, Books;
  }

  lemma BufferedInv(s: State, k: Key, f: ObjectFrame, timeout: int, now: int)
    requires Inv(s) && !s.ended && k !in s.ch.reset && NextObject(s, k, f)
    requires 0 <= k.tid < |s.cfg.tracks| && timeout == s.cfg.tracks[k.tid].deliveryTimeout
    ensures Inv(Buffered(s, k, f, timeout, now))
  {
    hide Inv, NextObject, Terminate, Accept;
    QueuedInv(s, k, f);
    TerminateInv(Queued(s, k, f), PUBDONE_TOO_FAR_BEHIND, k.tid, now);
  }

  lemma SendObjectGrows(s: State, f: ObjectFrame, tid: int, now: int, qlen: int)
    requires Inv(s) && Sound(s) && NextObject(s, Key(tid, f.groupId, f.subgroupId), f)
    ensures Grows(s.ch, SendObject(s, f, tid, now, qlen).ch)
  {
    hide Inv, Grows, Buffered;
    var k := Key(tid, f.groupId, f.subgroupId);
    if s.ended || k in s.ch.reset {
      GrowsReflexive(s.ch);
    } else {
      var timeout := s.cfg.tracks[tid].deliveryTimeout;
      InvStreams(s);
      BufferedInv(s, k, f, timeout, now);
      BufferedGrows(s, k, f, timeout, now);
      BufferedSound(s, k, f, timeout, now);
      var b := Buffered(s, k, f, timeout, now);
      FlushGrows(b, now, qlen);
      GrowsTransitive(s.ch, b.ch, Flush(b, now, qlen).ch);
    }
  }

  lemma GrowsReflexive(c: Channel<Key>)
    ensures Grows(c, c)
  {
  }

  lemma {:induction false} OfferManyGrows(s: State, tid: int, groupId: int, n: nat, now: int, qlen: int)
    requires Inv(s) && Sound(s) && 0 <= tid < |s.cfg.tracks| && Fits(s, tid, groupId, n, now)
    ensures Grows(s.ch, OfferMany(s, tid, groupId, n, now, qlen).ch)
    decreases n
  {
    hide Inv, Grows, OfferOne, Framable;
    if n == 0 {
      GrowsReflexive(s.ch);
    } else {
      OfferOneGrows(s, tid, groupId, n, now, qlen);
      var one := OfferOne(s, tid, groupId, now, qlen);
      OfferManyGrows(one, tid, groupId, n - 1, now, qlen);
      GrowsTransitive(s.ch, one.ch, OfferMany(s, tid, groupId, n, now, qlen).ch);
    }
  }

  lemma OfferOneGrows(s: State, tid: int, groupId: int, n: nat, now: int, qlen: int)
    requires Inv(s) && Sound(s) && 0 <= tid < |s.cfg.tracks| && 0 < n && Fits(s, tid, groupId, n, now)
    ensures var one := OfferOne(s, tid, groupId, now, qlen);
      Grows(s.ch, one.ch) && Inv(one) && Fits(one, tid, groupId, n - 1, now)
  {
    hide Grows, Framable, Inv;
    assert FrameAhead(s, tid, groupId, now, 0) == FrameOf(s, tid, groupId, now);
    OfferOneInv(s, tid, groupId, now, qlen);
    NextObjectOf(s, tid, groupId, now);
    SendObjectGrows(s.(next := Bump(s.next, tid)), FrameOf(s, tid, groupId, now), tid, now, qlen);
    OfferOneAdvances(s, tid, groupId, now, qlen);
    var one := OfferOne(s, tid, groupId, now, qlen);
    forall i | 0 <= i < n - 1
      ensures Framable(FrameAhead(one, tid, groupId, now, i))
    {
      assert FrameAhead(one, tid, groupId, now, i) == FrameAhead(s, tid, groupId, now, i + 1);
    }
  }

  /** Over one event, of any kind, nothing recorded is changed; in particular the cause recorded for a
      reset stays, and a stream keeps its owner. */
  lemma StepGrows(s: State, e: Event)
    requires Inv(s) && Sound(s) && EventFits(s, e)
    ensures Grows(s.ch, Step(s, e).ch)
  {
    hide Inv, Grows, OfferMany;
    GrowsReflexive(s.ch);
    match e
    case Group(tid, now, qlen) =>
      if !s.ended && 0 <= tid < |s.cfg.tracks| {
        var n := s.cfg.tracks[tid].PerGroup();
        OfferManyGrows(s, tid, Count(s.next, tid) / n, n, now, qlen);
      }
    case TimeoutCheck(now, qlen) =>
      var s1 := CheckOutstanding(s, now, qlen);
      CheckOutstandingInv(s, now, qlen);
      ExpireGrows(s, 0, now);
      ExpireFromSound(s, 0, now);
      SweepFromSound(s1, 0, now);
      SweepFromInv(s1, 0, now);
      SweepGrows(s1, 0, now);
      var s2 := Sweep(s1, now);
      FlushGrows(s2, now, qlen);
      GrowsTransitive(s.ch, s1.ch, s2.ch);
      GrowsTransitive(s.ch, s2.ch, Flush(s2, now, qlen).ch);
    case QueueFull =>
    case QueueDrained(now, qlen) =>
      PacingInv(s, false, s.writeEvent, s.eventBytes);
      FlushGrows(s.(blocked := false), now, qlen);
  }

  /** Over any stretch of a run nothing recorded is changed. */
  lemma {:induction false} RunGrows(s: State, es: seq<Event>)
    requires Inv(s) && Sound(s) && RunFits(s, es)
    ensures Grows(s.ch, Run(s, es).ch)
    decreases |es|
  {
    hide Inv, Sound, EventFits, Step, Grows;
    GrowsReflexive(s.ch);
    if es != [] {
      StepInv(s, es[0]);
      StepGrows(s, es[0]);
      RunGrows(Step(s, es[0]), es[1..]);
      GrowsTransitive(s.ch, Step(s, es[0]).ch, Run(s, es).ch);
    }
  }
}
