/**
 The publisher beside QUIC: what QUIC holds, what it has been sent but has not processed yet, and the
 occupancy the pacing of flushSendBuffer guarantees.
 */
module Pacing {
  import opened Bytes
  import opened MoqFraming
  import opened SendQueue
  import opened Publisher
  import opened PublisherInvariant

  function DataBytes(wire: seq<Command>): nat {
    if wire == [] then 0
    else
      var last := wire[|wire| - 1];
      DataBytes(wire[..|wire| - 1]) + (if last.Send? then |last.bytes| else 0)
  }

  lemma DataBytesAppend(wire: seq<Command>, cmd: Command)
    ensures DataBytes(wire + [cmd]) == DataBytes(wire) + (if cmd.Send? then |cmd.bytes| else 0)
  {
    assert (wire + [cmd])[..|wire|] == wire;
  }

  /** Bytes the tally already holds for the simulation time `now`. */
  function Tally(s: State, now: int): int {
    if s.writeEvent == now then s.eventBytes else 0
  }

  function WrittenSince(s: State, r: State): int {
    DataBytes(r.ch.wire) - DataBytes(s.ch.wire)
  }

  /** From `s` to `r`, within one event: the tally follows exactly what is written, and whatever is written
      stays within one chunk of the limit. */
  ghost predicate Paced(s: State, r: State, now: int, qlen: int) {
    && r.cfg == s.cfg
    && 0 <= WrittenSince(s, r) == Tally(r, now) - Tally(s, now)
    && (0 < WrittenSince(s, r) ==> qlen + Tally(r, now) <= s.cfg.queueLimit - 1 + s.cfg.chunk)
  }

  lemma PacedTransitive(a: State, b: State, c: State, now: int, qlen: int)
    requires Paced(a, b, now, qlen) && Paced(b, c, now, qlen)
    ensures Paced(a, c, now, qlen)
  {
  }

  lemma QuietPaced(s: State, r: State, now: int, qlen: int)
    requires r.cfg == s.cfg && DataBytes(r.ch.wire) == DataBytes(s.ch.wire) && Tally(r, now) == Tally(s, now)
    ensures Paced(s, r, now, qlen)
  {
  }

  lemma ShedStalePaced(s: State, i: nat, now: int, qlen: int)
    requires i < |s.Buffer()|
    ensures Paced(s, ShedStaleAt(s, i), now, qlen) && ShedStaleAt(s, i).writeEvent == s.writeEvent
  {
    ShedStaleWire(s, i);
    DataBytesAppend(s.ch.wire, Reset(s.Buffer()[i].stream, MOQ_ERR_DELIVERY_TIMEOUT));
    hide ShedStaleAt, DataBytes;
  }

  lemma ShedStaleWire(s: State, i: nat)
    requires i < |s.Buffer()|
    ensures var r := ShedStaleAt(s, i);
      && r.cfg == s.cfg && r.writeEvent == s.writeEvent && r.eventBytes == s.eventBytes
      && (r.ch.wire == s.ch.wire || r.ch.wire == s.ch.wire + [Reset(s.Buffer()[i].stream, MOQ_ERR_DELIVERY_TIMEOUT)])
  {
    hide Bump, Remove;
  }

  lemma FlushWritePaced(s: State, now: int, qlen: int)
    requires Sound(s) && s.Buffer() != [] && s.writeEvent == now && qlen + s.eventBytes < s.cfg.queueLimit
    ensures Paced(s, FlushWrite(s), now, qlen) && FlushWrite(s).writeEvent == now
  {
    WriteFrontShape(s.ch, 0, s.cfg.chunk);
    FlushWriteShape(s);
    DataBytesAppend(s.ch.wire, FrontCommand(s.ch, 0, s.cfg.chunk));
    FlushWriteTally(s);
    hide WriteFront, FlushWrite;
  }

  lemma FlushStepPaced(s: State, now: int, qlen: int)
    requires Sound(s) && s.Buffer() != [] && s.writeEvent == now && qlen + s.eventBytes < s.cfg.queueLimit
    ensures Paced(s, FlushStep(s, now), now, qlen) && FlushStep(s, now).writeEvent == now
  {
    if s.Buffer()[0].key !in s.ch.reset {
      hide Paced, ShedStaleAt, FlushWrite;
      if s.Buffer()[0].Stale(now) {
        ShedStalePaced(s, 0, now, qlen);
      } else {
        FlushWritePaced(s, now, qlen);
      }
    }
  }

  lemma FlushWriteTally(s: State)
    requires Sound(s) && s.Buffer() != []
    ensures FlushWrite(s).writeEvent == s.writeEvent
    ensures FlushWrite(s).eventBytes == s.eventBytes + |FrontCommand(s.ch, 0, s.cfg.chunk).bytes|
  {
    hide WriteFront, Encode;
  }

  lemma {:induction false} FlushLoopPaced(s: State, now: int, qlen: int)
    requires Sound(s) && s.writeEvent == now
    ensures Paced(s, FlushLoop(s, now, qlen), now, qlen)
    decreases Work(s.Buffer())
  {
    hide FlushStep;
    if s.blocked || s.Buffer() == [] || qlen + s.eventBytes >= s.cfg.queueLimit {
      QuietPaced(s, s, now, qlen);
    } else {
      FlushStepShrinks(s, now);
      FlushStepPaced(s, now, qlen);
      FlushLoopPaced(FlushStep(s, now), now, qlen);
      PacedTransitive(s, FlushStep(s, now), FlushLoop(s, now, qlen), now, qlen);
    }
  }

  /** A flush ends only when QUIC is blocked, when the queue is at its limit, or when nothing is left. */
  lemma {:induction false} FlushLoopEnds(s: State, now: int, qlen: int)
    requires Sound(s)
    ensures var r := FlushLoop(s, now, qlen);
      r.blocked || r.Buffer() == [] || qlen + r.eventBytes >= r.cfg.queueLimit
    decreases Work(s.Buffer())
  {
    hide FlushStep;
    if !(s.blocked || s.Buffer() == [] || qlen + s.eventBytes >= s.cfg.queueLimit) {
      FlushStepShrinks(s, now);
      FlushLoopEnds(FlushStep(s, now), now, qlen);
    }
  }

  lemma FlushEnds(s: State, now: int, qlen: int)
    requires Sound(s)
    ensures var r := Flush(s, now, qlen);
      r.blocked || r.Buffer() == [] || qlen + r.eventBytes >= r.cfg.queueLimit
  {
    FlushLoopEnds(EnterEvent(s, now), now, qlen);
  }

  lemma FlushPaced(s: State, now: int, qlen: int)
    requires Sound(s)
    ensures Paced(s, Flush(s, now, qlen), now, qlen)
  {
    FlushLoopPaced(EnterEvent(s, now), now, qlen);
    PacedTransitive(s, EnterEvent(s, now), Flush(s, now, qlen), now, qlen);
  }

  lemma {:induction false} SweepPaced(s: State, i: nat, now: int, qlen: int)
    requires i <= |s.Buffer()|
    ensures Paced(s, SweepFrom(s, i, now), now, qlen)
    decreases |s.Buffer()| - i
  {
    if i == |s.Buffer()| {
      QuietPaced(s, s, now, qlen);
    } else if s.Buffer()[i].Stale(now) {
      ShedStalePaced(s, i, now, qlen);
      SweepPaced(ShedStaleAt(s, i), i, now, qlen);
      PacedTransitive(s, ShedStaleAt(s, i), SweepFrom(s, i, now), now, qlen);
    } else {
      SweepPaced(s, i + 1, now, qlen);
    }
  }

  lemma {:induction false} ExpirePaced(s: State, i: nat, now: int, qlen: int)
    requires i <= |s.outstanding|
    ensures Paced(s, ExpireFrom(s, i, now), now, qlen)
    decreases |s.outstanding| - i
  {
    if i == |s.outstanding| {
      QuietPaced(s, s, now, qlen);
    } else if s.outstanding[i].key in s.ch.reset {
      var r := s.(outstanding := Remove(s.outstanding, i));
      ExpirePaced(r, i, now, qlen);
      PacedTransitive(s, r, ExpireFrom(s, i, now), now, qlen);
    } else if now - s.outstanding[i].createdAt > s.outstanding[i].timeout {
      DataBytesAppend(s.ch.wire, Reset(s.outstanding[i].stream, MOQ_ERR_DELIVERY_TIMEOUT));
      ExpirePaced(ExpireAt(s, i), i, now, qlen);
      PacedTransitive(s, ExpireAt(s, i), ExpireFrom(s, i, now), now, qlen);
    } else {
      ExpirePaced(s, i + 1, now, qlen);
    }
  }

  lemma {:induction false} ResetAllQuiet(s: State, code: int)
    ensures DataBytes(ResetAll(s, code).ch.wire) == DataBytes(s.ch.wire)
    decreases |s.ch.open|
  {
    if s.ch.open != map[] {
      FirstExists(s.ch.open.Keys);
      var k :| IsFirst(k, s.ch.open.Keys) &&
        ResetAll(s, code) == ResetAll(ResetSubgroup(s, k, s.ch.open[k], code), code);
      assert s.ch.open.Keys == (s.ch.open - {k}).Keys + {k};
      DataBytesAppend(s.ch.wire, Reset(s.ch.open[k], code));
      ResetAllQuiet(ResetSubgroup(s, k, s.ch.open[k], code), code);
    }
  }

  lemma {:induction false} DonesQuiet(wire: seq<Command>, tracks: seq<Track>, status: int, n: nat)
    requires n <= |tracks|
    ensures DataBytes(wire + DoneMessages(tracks, status, n)) == DataBytes(wire)
  {
    if n == 0 {
      assert wire + DoneMessages(tracks, status, 0) == wire;
    } else {
      var e, d := DoneMessages(tracks, status, n - 1), DoneMessages(tracks, status, n);
      DonesQuiet(wire, tracks, status, n - 1);
      assert wire + d == (wire + e) + [d[n - 1]];
      DataBytesAppend(wire + e, d[n - 1]);
    }
  }

  lemma TerminatePaced(s: State, status: int, tid: int, now: int, qlen: int)
    ensures Paced(s, Terminate(s, status, tid, now), now, qlen)
  {
    if !s.ended {
      var s1 := s.(ended := true, endTime := now, endStatus := status, trigger := tid);
      ResetAllQuiet(s1, MOQ_ERR_SEND_BUFFER_OVERFLOW);
      ResetAllKeepsQueue(s1, MOQ_ERR_SEND_BUFFER_OVERFLOW);
      var r := ResetAll(s1, MOQ_ERR_SEND_BUFFER_OVERFLOW);
      DonesQuiet(r.ch.wire, s.cfg.tracks, status, |s.cfg.tracks|);
    }
  }

  lemma BufferedPaced(s: State, k: Key, f: ObjectFrame, timeout: int, now: int, qlen: int)
    ensures Paced(s, Buffered(s, k, f, timeout, now), now, qlen)
  {
    hide Encode, Insert;
    var r := Accepted(s.(ch := Accept(s.ch, 0, k, f, timeout)), k.tid);
    assert r.ch.wire == s.ch.wire && r.cfg == s.cfg && Tally(r, now) == Tally(s, now);
    hide Accept, Terminate;
    QuietPaced(s, r, now, qlen);
    TerminatePaced(r, PUBDONE_TOO_FAR_BEHIND, k.tid, now, qlen);
    PacedTransitive(s, r, Terminate(r, PUBDONE_TOO_FAR_BEHIND, k.tid, now), now, qlen);
  }

  lemma OfferOnePaced(s: State, tid: int, groupId: int, now: int, qlen: int)
    requires Sound(s) && 0 <= tid < |s.cfg.tracks|
    ensures Paced(s, OfferOne(s, tid, groupId, now, qlen), now, qlen)
  {
    hide Buffered, Flush, AllUnfinished, Encode;
    var f, k := FrameOf(s, tid, groupId, now), Key(tid, groupId, 0);
    var s1 := s.(next := Bump(s.next, tid));
    QuietPaced(s, s1, now, qlen);
    if !s.ended && k !in s.ch.reset {
      var timeout := s.cfg.tracks[tid].deliveryTimeout;
      BufferedSound(s1, k, f, timeout, now);
      var b := Buffered(s1, k, f, timeout, now);
      BufferedPaced(s1, k, f, timeout, now, qlen);
      FlushPaced(b, now, qlen);
      PacedTransitive(s1, b, Flush(b, now, qlen), now, qlen);
    }
  }

  lemma {:induction false} OfferManyPaced(s: State, tid: int, groupId: int, n: nat, now: int, qlen: int)
    requires Sound(s) && 0 <= tid < |s.cfg.tracks|
    ensures Paced(s, OfferMany(s, tid, groupId, n, now, qlen), now, qlen)
    decreases n
  {
    hide Sound, OfferOne;
    if n == 0 {
      QuietPaced(s, s, now, qlen);
    } else {
      var one := OfferOne(s, tid, groupId, now, qlen);
      OfferOnePaced(s, tid, groupId, now, qlen);
      OfferManyPaced(one, tid, groupId, n - 1, now, qlen);
      PacedTransitive(s, one, OfferMany(s, tid, groupId, n, now, qlen), now, qlen);
    }
  }

  predicate AtTime(e: Event, now: int, qlen: int) {
    match e
    case Group(_, n, q) => n == now && q == qlen
    case TimeoutCheck(n, q) => n == now && q == qlen
    case QueueFull => true
    case QueueDrained(n, q) => n == now && q == qlen
  }

  lemma StepPaced(s: State, e: Event, now: int, qlen: int)
    requires Sound(s) && AtTime(e, now, qlen)
    ensures Paced(s, Step(s, e), now, qlen)
  {
    hide OfferMany, Flush, AllUnfinished, SweepFrom, ExpireFrom;
    QuietPaced(s, s, now, qlen);
    match e
    case Group(tid, _, _) =>
      if !s.ended && 0 <= tid < |s.cfg.tracks| {
        var n := s.cfg.tracks[tid].PerGroup();
        OfferManyPaced(s, tid, Count(s.next, tid) / n, n, now, qlen);
      }
    case TimeoutCheck(_, _) =>
      var s1 := CheckOutstanding(s, now, qlen);
      ExpirePaced(s, 0, now, qlen);
      QuietPaced(s, s.(outstanding := []), now, qlen);
      ExpireFromSound(s, 0, now);
      SweepFromSound(s1, 0, now);
      SweepPaced(s1, 0, now, qlen);
      QuietPaced(s1, s1, now, qlen);
      var s2 := Sweep(s1, now);
      FlushPaced(s2, now, qlen);
      PacedTransitive(s, s1, s2, now, qlen);
      PacedTransitive(s, s2, Flush(s2, now, qlen), now, qlen);
    case QueueFull =>
    case QueueDrained(_, _) =>
      var s1 := s.(blocked := false);
      QuietPaced(s, s1, now, qlen);
      FlushPaced(s1, now, qlen);
      PacedTransitive(s, s1, Flush(s1, now, qlen), now, qlen);
  }

  // ---- The publisher and QUIC together ----

  /** `held` are the data bytes in QUIC's send queue, `pending` those written to the socket that QUIC has
      not processed. Its messages travel without delay: time moves on only when none is pending. */
  datatype Joint = Joint(p: State, clock: int, held: int, pending: int)

  datatype Action =
    | App(e: Event, qlen: int)
    | Process(n: int)
    | Acknowledge(n: int)
    | Advance(clock: int)

  ghost predicate Possible(j: Joint, a: Action) {
    match a
    case App(e, qlen) => AtTime(e, j.clock, qlen) && j.held <= qlen
    case Process(n) => 0 <= n <= j.pending
    case Acknowledge(n) => 0 <= n <= j.held
    case Advance(clock) => j.clock < clock && j.pending == 0
  }

  ghost function Next(j: Joint, a: Action): Joint
    requires Sound(j.p)
  {
    match a
    case App(e, _) => var r := Step(j.p, e); j.(p := r, pending := j.pending + WrittenSince(j.p, r))
    case Process(n) => j.(held := j.held + n, pending := j.pending - n)
    case Acknowledge(n) => j.(held := j.held - n)
    case Advance(clock) => j.(clock := clock)
  }

  /** Every step is possible where it is taken. */
  ghost predicate Trace(j: Joint, actions: seq<Action>)
    requires Sound(j.p)
    decreases |actions|
  {
    actions == [] || (Possible(j, actions[0]) && Trace(Next(j, actions[0]), actions[1..]))
  }

  ghost function After(j: Joint, actions: seq<Action>): Joint
    requires Sound(j.p)
    decreases |actions|
  {
    if actions == [] then j else After(Next(j, actions[0]), actions[1..])
  }

  ghost predicate WithinLimit(j: Joint) {
    && 0 <= j.held && 0 <= j.pending <= Tally(j.p, j.clock)
    && j.held + j.pending <= j.p.cfg.queueLimit - 1 + j.p.cfg.chunk
    && j.p.writeEvent <= j.clock
  }

  lemma StepWriteEvent(s: State, e: Event, now: int, qlen: int)
    requires Sound(s) && AtTime(e, now, qlen)
    ensures Step(s, e).writeEvent == s.writeEvent || Step(s, e).writeEvent == now
  {
    hide OfferMany, FlushLoop, AllUnfinished, SweepFrom, ExpireFrom;
    match e
    case Group(tid, _, _) =>
      if !s.ended && 0 <= tid < |s.cfg.tracks| {
        var n := s.cfg.tracks[tid].PerGroup();
        OfferManyEvent(s, tid, Count(s.next, tid) / n, n, now, qlen);
      }
    case TimeoutCheck(_, _) =>
      var s1 := CheckOutstanding(s, now, qlen);
      ExpireFromSound(s, 0, now);
      SweepFromSound(s1, 0, now);
      FlushEvent(Sweep(s1, now), now, qlen);
    case QueueFull =>
    case QueueDrained(_, _) => FlushEvent(s.(blocked := false), now, qlen);
  }

  lemma FlushEvent(s: State, now: int, qlen: int)
    requires Sound(s)
    ensures Flush(s, now, qlen).writeEvent == now
  {
    FlushLoopEvent(EnterEvent(s, now), now, qlen);
  }

  lemma {:induction false} FlushLoopEvent(s: State, now: int, qlen: int)
    requires Sound(s) && s.writeEvent == now
    ensures FlushLoop(s, now, qlen).writeEvent == now
    decreases Work(s.Buffer())
  {
    hide FlushStep;
    if !(s.blocked || s.Buffer() == [] || qlen + s.eventBytes >= s.cfg.queueLimit) {
      FlushStepShrinks(s, now);
      FlushStepPaced(s, now, qlen);
      FlushLoopEvent(FlushStep(s, now), now, qlen);
    }
  }

  lemma {:induction false} OfferManyEvent(s: State, tid: int, groupId: int, n: nat, now: int, qlen: int)
    requires Sound(s) && 0 <= tid < |s.cfg.tracks|
    ensures var r := OfferMany(s, tid, groupId, n, now, qlen);
      r.writeEvent == s.writeEvent || r.writeEvent == now
    decreases n
  {
    hide FlushLoop, AllUnfinished, Encode, Buffered;
    if n > 0 {
      var f, k := FrameOf(s, tid, groupId, now), Key(tid, groupId, 0);
      var s1 := s.(next := Bump(s.next, tid));
      if !s.ended && k !in s.ch.reset {
        BufferedSound(s1, k, f, s.cfg.tracks[tid].deliveryTimeout, now);
        FlushEvent(Buffered(s1, k, f, s.cfg.tracks[tid].deliveryTimeout, now), now, qlen);
      }
      OfferManyEvent(OfferOne(s, tid, groupId, now, qlen), tid, groupId, n - 1, now, qlen);
    }
  }

  lemma NextWithinLimit(j: Joint, a: Action)
    requires Sound(j.p) && WithinLimit(j) && Possible(j, a)
    ensures WithinLimit(Next(j, a)) && Next(j, a).p.cfg == j.p.cfg
  {
    hide Step, Sound, DataBytes;
    match a
    case App(e, qlen) =>
      StepPaced(j.p, e, j.clock, qlen);
      StepWriteEvent(j.p, e, j.clock, qlen);
    case Process(n) =>
    case Acknowledge(n) =>
    case Advance(clock) =>
  }

  /** Across all flushes, at whatever times, the data in QUIC's queue and the data on its way there
      together never exceed the queue limit by a whole chunk. */
  lemma {:induction false} QueueStaysWithinLimit(j: Joint, actions: seq<Action>)
    requires Sound(j.p) && WithinLimit(j) && Trace(j, actions)
    ensures WithinLimit(After(j, actions)) && After(j, actions).p.cfg == j.p.cfg
    decreases |actions|
  {
    hide Step, Sound, WithinLimit, Possible;
    if actions != [] {
      NextWithinLimit(j, actions[0]);
      QueueStaysWithinLimit(Next(j, actions[0]), actions[1..]);
    }
  }

  lemma InitiallyWithinLimit(cfg: Config)
    requires 0 < cfg.chunk && 0 <= cfg.queueLimit
    ensures WithinLimit(Joint(Initial(cfg), 0, 0, 0))
  {
  }

  /** From the start of the simulation, whatever the publisher and QUIC do: what QUIC holds and what is on
      its way there stays below the limit plus one chunk. */
  lemma NeverBeyondLimit(cfg: Config, actions: seq<Action>)
    requires 0 < cfg.chunk && 0 <= cfg.queueLimit && Trace(Joint(Initial(cfg), 0, 0, 0), actions)
    ensures var j := After(Joint(Initial(cfg), 0, 0, 0), actions);
      0 <= j.held && 0 <= j.pending && j.held + j.pending <= cfg.queueLimit - 1 + cfg.chunk
  {
    InitiallyWithinLimit(cfg);
    QueueStaysWithinLimit(Joint(Initial(cfg), 0, 0, 0), actions);
  }
}
