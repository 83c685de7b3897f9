/**
 The delivery timeout of an object (section 10.4.3 of draft-ietf-moq-transport-14), in terms of when the object
 was created: what a sweep and a turn of a flush do with the objects that wait.
 */
module DeliveryTimeouts {
  import opened Bytes
  import opened MoqFraming
  import opened SendQueue
  import opened Publisher
  import Relay

  /** A track without a timeout is reliable; else the object may be delivered until its age is the timeout. */
  predicate InTime<K>(item: Item<K>, now: int) {
    item.timeout <= 0 || now <= item.createdAt + item.timeout
  }

  /** The objects in time, in their order. */
  function Timely<K(!new)>(q: seq<Item<K>>, now: int): (r: seq<Item<K>>)
    ensures forall item :: item in r <==> item in q && InTime(item, now)
  {
    if q == [] then [] else (if InTime(q[0], now) then [q[0]] else []) + Timely(q[1..], now)
  }

  /** How many objects of a track are past their time. */
  function Overdue(q: seq<Item<Key>>, tid: int, now: int): nat {
    if q == [] then 0 else (if q[0].key.tid == tid && !InTime(q[0], now) then 1 else 0) + Overdue(q[1..], tid, now)
  }

  /** One reset for every object past its time of which part is out. */
  function TimeoutResets(q: seq<Item<Key>>, now: int): seq<Command> {
    if q == [] then []
    else (if !InTime(q[0], now) && q[0].sentOffset > 0 then [Reset(q[0].stream, 0x2)] else []) + TimeoutResets(q[1..], now)
  }

  // ---- The sweep over the send buffer ----

  ghost predicate Swept(s: State, r: State, i: nat, now: int)
    requires i <= |s.Buffer()|
  {
    var q := s.Buffer();
    && r.Buffer() == q[..i] + Timely(q[i..], now)
    && (forall t :: Count(r.stats.shedStale, t) == Count(s.stats.shedStale, t) + Overdue(q[i..], t, now))
    && r.ch.wire == s.ch.wire + TimeoutResets(q[i..], now)
    && r.ch.hist == s.ch.hist && r.outstanding == s.outstanding && r.ended == s.ended && r.next == s.next && r.cfg == s.cfg
  }

  lemma ShedStaleExact(s: State, i: nat)
    requires i < |s.Buffer()|
    ensures var r, item := ShedStaleAt(s, i), s.Buffer()[i];
      && r.Buffer() == Remove(s.Buffer(), i)
      && (forall t :: Count(r.stats.shedStale, t) == Count(s.stats.shedStale, t) + if item.key.tid == t then 1 else 0)
      && r.ch.wire == s.ch.wire + (if item.sentOffset > 0 then [Reset(item.stream, 0x2)] else [])
      && r.ch.hist == s.ch.hist && r.outstanding == s.outstanding && r.ended == s.ended && r.next == s.next && r.cfg == s.cfg
  {
    hide Remove;
  }

  /** Taking the first of the rest into account. */
  lemma SweptStep(q: seq<Item<Key>>, i: nat, now: int, t: int)
    requires i < |q|
    ensures var item := q[i];
      && Overdue(q[i..], t, now) == (if item.key.tid == t && !InTime(item, now) then 1 else 0) + Overdue(q[i + 1..], t, now)
      && TimeoutResets(q[i..], now) == (if !InTime(item, now) && item.sentOffset > 0 then [Reset(item.stream, 0x2)] else []) + TimeoutResets(q[i + 1..], now)
      && (if InTime(item, now) then q[..i] + Timely(q[i..], now) == q[..i + 1] + Timely(q[i + 1..], now)
          else Remove(q, i)[..i] == q[..i] && Remove(q, i)[i..] == q[i + 1..] && Timely(q[i..], now) == Timely(q[i + 1..], now))
  {
    assert q[i..][1..] == q[i + 1..] && q[i..][0] == q[i];
    OverdueStep(q[i..], t, now);
    ResetsStep(q[i..], now);
    TimelyStep(q[i..], now);
    hide *;
    if InTime(q[i], now) {
      KeptAround(q, i, Timely(q[i + 1..], now));
    } else {
      RemovedAround(q, i);
    }
  }

  lemma OverdueStep(q: seq<Item<Key>>, t: int, now: int)
    requires q != []
    ensures Overdue(q, t, now) == (if q[0].key.tid == t && !InTime(q[0], now) then 1 else 0) + Overdue(q[1..], t, now)
  {
  }

  lemma ResetsStep(q: seq<Item<Key>>, now: int)
    requires q != []
    ensures TimeoutResets(q, now) == (if !InTime(q[0], now) && q[0].sentOffset > 0 then [Reset(q[0].stream, 0x2)] else []) + TimeoutResets(q[1..], now)
  {
  }

  lemma TimelyStep<K(!new)>(q: seq<Item<K>>, now: int)
    requires q != []
    ensures Timely(q, now) == if InTime(q[0], now) then [q[0]] + Timely(q[1..], now) else Timely(q[1..], now)
  {
    hide InTime;
    assert [] + Timely(q[1..], now) == Timely(q[1..], now);
  }

  lemma RemovedAround<T>(q: seq<T>, i: nat)
    requires i < |q|
    ensures Remove(q, i)[..i] == q[..i] && Remove(q, i)[i..] == q[i + 1..]
  {
  }

  lemma KeptAround<T>(q: seq<T>, i: nat, rest: seq<T>)
    requires i < |q|
    ensures q[..i] + ([q[i]] + rest) == q[..i + 1] + rest
  {
    assert q[..i + 1] == q[..i] + [q[i]];
  }

  lemma StaleIffOverdue<K>(item: Item<K>, now: int)
    ensures item.Stale(now) <==> !InTime(item, now)
  {
  }

  lemma {:induction false} SweepFromExact(s: State, i: nat, now: int)
    requires i <= |s.Buffer()|
    ensures Swept(s, SweepFrom(s, i, now), i, now)
    decreases |s.Buffer()| - i
  {
    hide Swept, ShedStaleAt, Timely, Overdue, TimeoutResets, Remove, InTime;
    var q := s.Buffer();
    if i == |q| {
      NothingSwept(s, now);
    } else {
      StaleIffOverdue(q[i], now);
      ShedStaleExact(s, i);
      if q[i].Stale(now) {
        var t := ShedStaleAt(s, i);
        SweepFromExact(t, i, now);
        SweptAfterShed(s, t, SweepFrom(t, i, now), i, now);
      } else {
        SweepFromExact(s, i + 1, now);
        SweptOneKept(s, SweepFrom(s, i + 1, now), i, now);
      }
    }
  }

  lemma NothingSwept(s: State, now: int)
    ensures Swept(s, s, |s.Buffer()|, now)
  {
    var q := s.Buffer();
    assert q[|q|..] == [] && q[..|q|] == q;
    assert q + [] == q && s.ch.wire + [] == s.ch.wire;
  }

  lemma SweptOneKept(s: State, r: State, i: nat, now: int)
    requires i < |s.Buffer()| && InTime(s.Buffer()[i], now) && Swept(s, r, i + 1, now)
    ensures Swept(s, r, i, now)
  {
    hide Timely, Overdue, TimeoutResets, InTime;
    var q := s.Buffer();
    SweptStep(q, i, now, 0);
    assert [] + TimeoutResets(q[i + 1..], now) == TimeoutResets(q[i + 1..], now);
    forall t
      ensures Count(r.stats.shedStale, t) == Count(s.stats.shedStale, t) + Overdue(q[i..], t, now)
    {
      SweptStep(q, i, now, t);
    }
  }

  lemma SweptAfterShed(s: State, t: State, r: State, i: nat, now: int)
    requires i < |s.Buffer()| && !InTime(s.Buffer()[i], now)
    requires t.Buffer() == Remove(s.Buffer(), i)
    requires var item := s.Buffer()[i];
      && (forall n :: Count(t.stats.shedStale, n) == Count(s.stats.shedStale, n) + if item.key.tid == n then 1 else 0)
      && t.ch.wire == s.ch.wire + (if item.sentOffset > 0 then [Reset(item.stream, 0x2)] else [])
      && t.ch.hist == s.ch.hist && t.outstanding == s.outstanding && t.ended == s.ended && t.next == s.next && t.cfg == s.cfg
    requires Swept(t, r, i, now)
    ensures Swept(s, r, i, now)
  {
    hide Timely, Overdue, TimeoutResets, InTime, Remove;
    var q := s.Buffer();
    var one := if q[i].sentOffset > 0 then [Reset(q[i].stream, 0x2)] else [];
    SweptStep(q, i, now, 0);
    Appended(s.ch.wire, one, TimeoutResets(q[i + 1..], now));
    forall n
      ensures Count(r.stats.shedStale, n) == Count(s.stats.shedStale, n) + Overdue(q[i..], n, now)
    {
      SweptStep(q, i, now, n);
    }
  }

  lemma Appended(a: seq<Command>, b: seq<Command>, c: seq<Command>)
    ensures a + b + c == a + (b + c)
  {
  }

  /**
   * The sweep, before a teardown: exactly the objects in time stay, in their order; the others are counted as
   * shed, track by track; one that was partly written has its stream reset; nothing is written.
   */
  lemma SweepExact(s: State, now: int)
    requires !s.ended
    ensures var r := Sweep(s, now);
      && r.Buffer() == Timely(s.Buffer(), now)
      && (forall t :: Count(r.stats.shedStale, t) == Count(s.stats.shedStale, t) + Overdue(s.Buffer(), t, now))
      && r.ch.wire == s.ch.wire + TimeoutResets(s.Buffer(), now)
      && r.ch.hist == s.ch.hist && r.outstanding == s.outstanding && !r.ended
  {
    hide SweepFrom, Timely, Overdue, TimeoutResets;
    SweepFromExact(s, 0, now);
    var q := s.Buffer();
    assert q[..0] == [] && q[0..] == q;
    assert [] + Timely(q, now) == Timely(q, now);
  }

  // ---- One turn of a flush ----

  /** Bytes of the next slice: a chunk, or what is left. */
  function SliceLength<K>(item: Item<K>, chunk: int): int {
    if |item.bytes| - item.sentOffset < chunk then |item.bytes| - item.sentOffset else chunk
  }

  function NextSlice<K>(item: Item<K>, chunk: int): Command
    requires item.sentOffset < |item.bytes| && 0 < chunk
  {
    Send(item.stream, item.bytes[item.sentOffset..item.sentOffset + SliceLength(item, chunk)], QuicPriorityOf(item.priority))
  }

  /** The queue once a slice of its first object is out: the object moves on, or leaves when it is complete. */
  function SliceTaken<K>(q: seq<Item<K>>, chunk: int): seq<Item<K>>
    requires q != [] && q[0].sentOffset < |q[0].bytes| && 0 < chunk
  {
    var end := q[0].sentOffset + SliceLength(q[0], chunk);
    if end == |q[0].bytes| then q[1..] else [q[0].(sentOffset := end)] + q[1..]
  }

  function Plus(m: Counts, tid: int, t: int): int {
    Count(m, t) + if t == tid then 1 else 0
  }

  /**
   * What a turn of the publisher's flush does with the first object: it goes unsent if its subgroup was reset
   * or its time is over, with a reset if part of it is out; else its next slice is written, and nothing more.
   */
  lemma FlushTurn(s: State, now: int)
    requires Sound(s) && s.Buffer() != []
    ensures s.Buffer()[0].sentOffset < |s.Buffer()[0].bytes| && 0 < s.cfg.chunk
    ensures var r, q := FlushStep(s, now), s.Buffer();
      var first, tid := q[0], q[0].key.tid;
      if first.key in s.ch.reset then
        && r.Buffer() == q[1..] && r.ch.wire == s.ch.wire && r.ch.hist == s.ch.hist && r.stats.sent == s.stats.sent
        && (if s.ch.reset[first.key] == 0x100
            then r.stats.shedStale == s.stats.shedStale && forall t :: Count(r.stats.shedOverflow, t) == Plus(s.stats.shedOverflow, tid, t)
            else r.stats.shedOverflow == s.stats.shedOverflow && forall t :: Count(r.stats.shedStale, t) == Plus(s.stats.shedStale, tid, t))
      else if !InTime(first, now) then
        && r.Buffer() == q[1..] && r.ch.wire == s.ch.wire + (if first.sentOffset > 0 then [Reset(first.stream, 0x2)] else [])
        && r.ch.hist == s.ch.hist && r.stats.sent == s.stats.sent && r.stats.shedOverflow == s.stats.shedOverflow
        && forall t :: Count(r.stats.shedStale, t) == Plus(s.stats.shedStale, tid, t)
      else
        && r.Buffer() == SliceTaken(q, s.cfg.chunk) && r.ch.wire == s.ch.wire + [NextSlice(first, s.cfg.chunk)]
        && r.stats.shedStale == s.stats.shedStale && r.stats.shedOverflow == s.stats.shedOverflow
        && r.eventBytes == s.eventBytes + SliceLength(first, s.cfg.chunk)
        && (if first.sentOffset + SliceLength(first, s.cfg.chunk) == |first.bytes|
            then forall t :: Count(r.stats.sent, t) == Plus(s.stats.sent, tid, t)
            else r.stats.sent == s.stats.sent)
  {
    var q := s.Buffer();
    StaleIffOverdue(q[0], now);
    assert q[1..] == Remove(q, 0);
    if q[0].key in s.ch.reset {
    } else if q[0].Stale(now) {
      ShedStaleExact(s, 0);
      ShedStaleRest(s);
      hide ShedStaleAt, InTime;
    } else {
      WriteTurn(s);
      hide FlushWrite, InTime;
    }
  }

  lemma ShedStaleRest(s: State)
    requires s.Buffer() != []
    ensures var r := ShedStaleAt(s, 0);
      r.stats.sent == s.stats.sent && r.stats.shedOverflow == s.stats.shedOverflow
  {
  }

  lemma WriteTurn(s: State)
    requires Sound(s) && s.Buffer() != []
    ensures var r, q := FlushWrite(s), s.Buffer();
      && r.Buffer() == SliceTaken(q, s.cfg.chunk) && r.ch.wire == s.ch.wire + [NextSlice(q[0], s.cfg.chunk)]
      && r.stats.shedStale == s.stats.shedStale && r.stats.shedOverflow == s.stats.shedOverflow
      && r.eventBytes == s.eventBytes + SliceLength(q[0], s.cfg.chunk)
      && (if q[0].sentOffset + SliceLength(q[0], s.cfg.chunk) == |q[0].bytes|
          then forall t :: Count(r.stats.sent, t) == Plus(s.stats.sent, q[0].key.tid, t)
          else r.stats.sent == s.stats.sent)
  {
    hide Encode, HistAfter, OutstandingAfter;
    var q := s.Buffer();
    assert q[1..] == Remove(q, 0);
    var end := q[0].sentOffset + ChunkSize(q[0], s.cfg.chunk);
    assert q[0 := q[0].(sentOffset := end)] == [q[0].(sentOffset := end)] + q[1..];
  }

  /** The same of the relay, on the queue of one connection; the other queues stay. */
  lemma RelayFlushTurn(s: Relay.State, sock: int, now: int)
    requires Relay.Sound(s) && s.Queue(sock) != []
    ensures s.Queue(sock)[0].sentOffset < |s.Queue(sock)[0].bytes| && 0 < s.cfg.chunk
    ensures var r, q := Relay.FlushStep(s, sock, now), s.Queue(sock);
      && (forall n :: n != sock ==> r.Queue(n) == s.Queue(n))
      && if q[0].key in s.ch.reset then r.Queue(sock) == q[1..] && r.ch.wire == s.ch.wire
         else if !InTime(q[0], now) then
           && r.Queue(sock) == q[1..] && r.ch.wire == s.ch.wire + (if q[0].sentOffset > 0 then [Reset(q[0].stream, 0x2)] else [])
           && (q[0].sentOffset > 0 ==> q[0].key in r.ch.reset && r.ch.reset[q[0].key] == 0x2)
         else
           && r.Queue(sock) == SliceTaken(q, s.cfg.chunk) && r.ch.wire == s.ch.wire + [NextSlice(q[0], s.cfg.chunk)]
           && r.Written(sock) == s.Written(sock) + SliceLength(q[0], s.cfg.chunk)
  {
    var q := s.Queue(sock);
    assert Unfinished(s.ch.queue[sock][0]);
    StaleIffOverdue(q[0], now);
    Relay.QueueAfterTakeOut(s, sock, 0);
    Relay.QueueAfterGiveUp(s, sock, 0, MOQ_ERR_DELIVERY_TIMEOUT);
    assert q[1..] == Remove(q, 0);
    RelayWriteTurn(s, sock);
    hide Relay.Write, Remove, InTime, SliceTaken, NextSlice;
  }

  lemma RelayWriteTurn(s: Relay.State, sock: int)
    requires Relay.Sound(s) && s.Queue(sock) != []
    ensures s.Queue(sock)[0].sentOffset < |s.Queue(sock)[0].bytes|
    ensures var r, q := Relay.Write(s, sock), s.Queue(sock);
      && (forall n :: n != sock ==> r.Queue(n) == s.Queue(n))
      && r.Queue(sock) == SliceTaken(q, s.cfg.chunk) && r.ch.wire == s.ch.wire + [NextSlice(q[0], s.cfg.chunk)]
      && r.Written(sock) == s.Written(sock) + SliceLength(q[0], s.cfg.chunk)
  {
    hide Encode, HistAfter;
    var q := s.Queue(sock);
    assert Unfinished(s.ch.queue[sock][0]);
    assert q[1..] == Remove(q, 0);
    var end := q[0].sentOffset + ChunkSize(q[0], s.cfg.chunk);
    assert q[0 := q[0].(sentOffset := end)] == [q[0].(sentOffset := end)] + q[1..];
  }
}
