/** From the publisher through the relay to a subscriber. */
module EndToEnd {
  import opened Bytes
  import opened ByteStream
  import opened MoqFraming
  import opened SendQueue
  import Publisher
  import PublisherInvariant
  import PublisherRuns
  import Relay
  import RelayInvariant
  import RelayRuns
  import RelayStreams
  import ReceivePump

  // ---- What arrives at the relay ----

  /** Of the objects that arrived, those that came on stream `id`. */
  function FromStream(sources: seq<int>, arrived: seq<ObjectFrame>, id: int): seq<ObjectFrame>
    requires |sources| == |arrived|
  {
    if arrived == [] then [] else
      var n := |arrived| - 1;
      FromStream(sources[..n], arrived[..n], id) + if sources[n] == id then [arrived[n]] else []
  }

  /** No two tracks share an alias. */
  ghost predicate DistinctAliases(cfg: Publisher.Config) {
    forall i, j :: 0 <= i < |cfg.tracks| && 0 <= j < |cfg.tracks| && cfg.tracks[i].alias == cfg.tracks[j].alias ==> i == j
  }

  /** The `n`th object came on stream `sources[n]`, parsed from what had been delivered of its bytes. */
  ghost predicate ArrivedFrom(p: Publisher.State, delivered: map<int, seq<Bytes>>, sources: seq<int>, arrived: seq<ObjectFrame>) {
    && |sources| == |arrived|
    && (forall n :: 0 <= n < |sources| ==> sources[n] in p.ch.hist && sources[n] in delivered)
    && forall id :: id in delivered ==>
         id in p.ch.hist && Concat(delivered[id]) <= StreamBytes(p.ch.wire, id)
         && FromStream(sources, arrived, id) == Feed(TryParse, [], delivered[id]).0
  }

  /** Where in its stream's sequence the `n`th arrival stands. */
  lemma {:induction false} PlaceInStream(sources: seq<int>, arrived: seq<ObjectFrame>, m: nat, n: nat)
    requires |sources| == |arrived| && m < n <= |arrived|
    ensures var k := |FromStream(sources[..m], arrived[..m], sources[m])|;
      var xs := FromStream(sources[..n], arrived[..n], sources[m]);
      k < |xs| && xs[k] == arrived[m]
    decreases n
  {
    assert sources[..n][..n - 1] == sources[..n - 1] && arrived[..n][..n - 1] == arrived[..n - 1];
    if m < n - 1 {
      PlaceInStream(sources, arrived, m, n - 1);
    }
  }

  /** What one stream of the publisher can deliver: whole objects of its subgroup in ascending object id. */
  ghost predicate Delivers(p: Publisher.State, id: int, xs: seq<ObjectFrame>)
    requires id in p.ch.hist
  {
    var h := p.ch.hist[id];
    && 0 <= h.key.tid < |p.cfg.tracks|
    && AscendingIds(xs)
    && forall f :: f in xs ==>
         f in h.offered && Framable(f) && f.groupId == h.key.groupId && f.subgroupId == h.key.subgroupId
         && f.trackAlias == p.cfg.tracks[h.key.tid].alias && f.priority == h.priority
  }

  lemma PublisherDelivers(cfg: Publisher.Config, pes: seq<Publisher.Event>, id: int, packets: seq<Bytes>)
    requires 0 < cfg.chunk && PublisherRuns.RunFits(Publisher.Initial(cfg), pes)
    requires id in Publisher.Run(Publisher.Initial(cfg), pes).ch.hist
    requires Concat(packets) <= StreamBytes(Publisher.Run(Publisher.Initial(cfg), pes).ch.wire, id)
    ensures Delivers(Publisher.Run(Publisher.Initial(cfg), pes), id, Feed(TryParse, [], packets).0)
  {
    PublisherInvariant.InitialInv(cfg);
    PublisherRuns.RunInv(Publisher.Initial(cfg), pes);
    hide Publisher.Run, PublisherRuns.RunFits, SendQueue.Valid, PublisherInvariant.Books, PublisherInvariant.Accounted, Feed, StreamBytes;
    StreamDelivers(Publisher.Run(Publisher.Initial(cfg), pes), id, packets);
  }

  lemma StreamDelivers(p: Publisher.State, id: int, packets: seq<Bytes>)
    requires PublisherInvariant.Inv(p) && id in p.ch.hist && Concat(packets) <= StreamBytes(p.ch.wire, id)
    ensures Delivers(p, id, Feed(TryParse, [], packets).0)
  {
    StreamContents(p, id);
    hide SendQueue.Valid, PublisherInvariant.Books, PublisherInvariant.Accounted, PublisherInvariant.StreamOfTrack,
      Feed, StreamBytes, Encode, Framable;
    NeverDesynchronised(p.ch, id, packets);
  }

  /** What is offered on a stream of the publisher. */
  lemma StreamContents(p: Publisher.State, id: int)
    requires PublisherInvariant.Inv(p) && id in p.ch.hist
    ensures var h := p.ch.hist[id];
      && 0 <= h.key.tid < |p.cfg.tracks|
      && forall f :: f in h.offered ==>
           Framable(f) && f.groupId == h.key.groupId && f.subgroupId == h.key.subgroupId
           && f.trackAlias == p.cfg.tracks[h.key.tid].alias && f.priority == h.priority
  {
    hide Encode, StreamBytes, PublisherInvariant.Balanced, PublisherInvariant.Causes, PublisherInvariant.Teardown,
      PublisherInvariant.Accounted, Queues, Discipline, Streams, Framable;
    assert PublisherInvariant.StreamOfTrack(p, p.ch.hist[id]);
    assert StreamOk(p.ch.hist[id]);
  }

  /** A subgroup of an alias has one stream at the publisher. */
  lemma OneStream(cfg: Publisher.Config, pes: seq<Publisher.Event>, a: int, b: int)
    requires 0 < cfg.chunk && PublisherRuns.RunFits(Publisher.Initial(cfg), pes)
    ensures var c := Publisher.Run(Publisher.Initial(cfg), pes).ch;
      a in c.hist && b in c.hist && c.hist[a].key == c.hist[b].key ==> a == b
    ensures Publisher.Run(Publisher.Initial(cfg), pes).cfg == cfg
  {
    PublisherRuns.StreamDiscipline(cfg, pes);
    RunKeepsConfig(Publisher.Initial(cfg), pes);
  }

  lemma {:induction false} RunKeepsConfig(s: Publisher.State, pes: seq<Publisher.Event>)
    requires Publisher.Sound(s)
    ensures Publisher.Run(s, pes).cfg == s.cfg
    decreases |pes|
  {
    if pes != [] {
      StepKeepsConfig(s, pes[0]);
      RunKeepsConfig(Publisher.Step(s, pes[0]), pes[1..]);
    }
  }

  lemma StepKeepsConfig(s: Publisher.State, e: Publisher.Event)
    requires Publisher.Sound(s)
    ensures Publisher.Step(s, e).cfg == s.cfg
  {
    hide Publisher.OfferGroup, Publisher.OnTimeoutCheck, Publisher.FlushLoop;
    match e
    case Group(tid, now, qlen) =>
      PublisherRuns.OfferGroupKeepsConfig(s, tid, now, qlen);
    case TimeoutCheck(now, qlen) =>
      PublisherRuns.TimeoutCheckKeepsOffers(s, now, qlen);
    case QueueFull =>
    case QueueDrained(now, qlen) =>
  }

  /** The publisher's final state, with everything the proofs below use of it. */
  ghost predicate Source(p: Publisher.State) {
    && DistinctAliases(p.cfg)
    && forall a, b :: a in p.ch.hist && b in p.ch.hist && p.ch.hist[a].key == p.ch.hist[b].key ==> a == b
  }

  /** What every stream of the publisher has delivered. */
  ghost predicate Sourced(p: Publisher.State, sources: seq<int>, arrived: seq<ObjectFrame>) {
    && Source(p)
    && |sources| == |arrived|
    && forall n :: 0 <= n < |sources| ==> sources[n] in p.ch.hist && Delivers(p, sources[n], FromStream(sources, arrived, sources[n]))
  }

  /** The `n`th arrival is an object of its stream's subgroup. */
  lemma ArrivalDelivered(p: Publisher.State, sources: seq<int>, arrived: seq<ObjectFrame>, n: nat)
    requires Sourced(p, sources, arrived) && n < |arrived|
    ensures arrived[n] in FromStream(sources, arrived, sources[n])
  {
    assert sources[..|sources|] == sources && arrived[..|arrived|] == arrived;
    PlaceInStream(sources, arrived, n, |arrived|);
  }

  /** Of two arrivals of one subgroup the later has the greater object id and the same priority. */
  lemma SubgroupInOrder(p: Publisher.State, sources: seq<int>, arrived: seq<ObjectFrame>, m: nat, n: nat)
    requires Sourced(p, sources, arrived) && m < n < |arrived| && RelayRuns.SameSubgroup(arrived[m], arrived[n])
    ensures arrived[m].objectId < arrived[n].objectId && arrived[m].priority == arrived[n].priority
  {
    ArrivalDelivered(p, sources, arrived, m);
    ArrivalDelivered(p, sources, arrived, n);
    assert Delivers(p, sources[m], FromStream(sources, arrived, sources[m]));
    assert Delivers(p, sources[n], FromStream(sources, arrived, sources[n]));
    assert p.ch.hist[sources[m]].key == p.ch.hist[sources[n]].key;
    assert sources[m] == sources[n];
    LaterInStream(sources, arrived, m, n);
  }

  lemma LaterInStream(sources: seq<int>, arrived: seq<ObjectFrame>, m: nat, n: nat)
    requires |sources| == |arrived| && m < n < |arrived| && sources[m] == sources[n]
    ensures var xs := FromStream(sources, arrived, sources[n]);
      exists i, j :: 0 <= i < j < |xs| && xs[i] == arrived[m] && xs[j] == arrived[n]
  {
    var id := sources[n];
    assert sources[..|sources|] == sources && arrived[..|arrived|] == arrived;
    PlaceInStream(sources, arrived, n, |arrived|);
    PlaceInStream(sources, arrived, m, |arrived|);
    PlaceInStream(sources, arrived, m, n);
    var xs := FromStream(sources, arrived, id);
    var i, j := |FromStream(sources[..m], arrived[..m], id)|, |FromStream(sources[..n], arrived[..n], id)|;
    assert i < j && xs[i] == arrived[m] && xs[j] == arrived[n];
  }

  /** Every object arrives as the relay counts on. */
  lemma AllArrivable(p: Publisher.State, sources: seq<int>, arrived: seq<ObjectFrame>, n: nat)
    requires Sourced(p, sources, arrived) && n < |arrived|
    ensures RelayRuns.Arrivable(arrived[..n], arrived[n])
  {
    ArrivalDelivered(p, sources, arrived, n);
    assert Delivers(p, sources[n], FromStream(sources, arrived, sources[n]));
    hide Framable, Delivers;
    forall g | g in arrived[..n] && RelayRuns.SameSubgroup(g, arrived[n])
      ensures g.objectId < arrived[n].objectId && g.priority == arrived[n].priority
    {
      var m :| 0 <= m < n && arrived[m] == g;
      SubgroupInOrder(p, sources, arrived, m, n);
    }
  }

  /** The bytes the relay cuts off its buffer for an object, and forwards, are the publisher's frame of it. */
  lemma CutBytesAreTheFrame(frames: seq<ObjectFrame>, data: Bytes)
    requires forall f :: f in frames ==> Framable(f)
    requires data <= EncodeAll(Encode, frames) && TryParse(data).Got?
    ensures frames != [] && TryParse(data).value == frames[0]
    ensures TryParse(data).consumed <= |data| && data[..TryParse(data).consumed] == Encode(frames[0])
  {
    hide Encode, TryParse;
    if frames != [] {
      PrefixCases(Encode(frames[0]), EncodeAll(Encode, frames[1..]), data);
    }
    EmptyNeedsMore();
    ObjectFramesDelimit();
  }

  lemma PrefixCases(e: Bytes, rest: Bytes, data: Bytes)
    requires data <= e + rest
    ensures if |data| < |e| then data == e[..|data|] else data == e + data[|e|..]
  {
    assert data == (e + rest)[..|data|];
  }

  lemma EmptyNeedsMore()
    ensures TryParse([]) == NeedMore
  {
  }

  // ---- The relay's run ----

  predicate Once(s: Relay.State, e: Relay.Event) {
    e.Subscribe? ==> (e.id in s.sockets ==> s.sockets[e.id] == e.sock) && e.id !in Relay.SubscribersOf(s.byTrack, e.track)
  }

  /** One SUBSCRIBE per subscriber and track, over one connection. */
  ghost predicate SubscribesOnce(s: Relay.State, es: seq<Relay.Event>)
    requires Relay.Sound(s)
    decreases |es|
  {
    es == [] || (Once(s, es[0]) && SubscribesOnce(Relay.Step(s, es[0]), es[1..]))
  }

  lemma {:induction false} RelayRunFits(s: Relay.State, before: seq<ObjectFrame>, es: seq<Relay.Event>, all: seq<ObjectFrame>)
    requires Relay.Sound(s) && SubscribesOnce(s, es)
    requires all == before + RelayRuns.ArrivedIn(es)
    requires forall n :: 0 <= n < |all| ==> RelayRuns.Arrivable(all[..n], all[n])
    ensures RelayRuns.RunFits(s, before, es)
    decreases |es|
  {
    hide RelayRuns.Arrivable, Relay.Step, Relay.Sound;
    if es != [] {
      var e := es[0];
      if e.Object? {
        assert RelayRuns.ArrivedIn(es) == [e.frame] + RelayRuns.ArrivedIn(es[1..]);
        assert all[..|before|] == before && all[|before|] == e.frame;
        assert RelayRuns.Arrivable(all[..|before|], all[|before|]);
      }
      assert before + RelayRuns.ArrivedIn(es) == (before + RelayRuns.Arrivals(e)) + RelayRuns.ArrivedIn(es[1..]);
      RelayRunFits(Relay.Step(s, e), before + RelayRuns.Arrivals(e), es[1..], all);
    }
  }

  // ---- At the subscriber ----

  ghost predicate IsSubsequence(xs: seq<ObjectFrame>, ys: seq<ObjectFrame>) {
    || xs == []
    || (ys != [] && IsSubsequence(if xs[0] == ys[0] then xs[1..] else xs, ys[1..]))
  }

  /** Ascending objects taken from an ascending list are a subsequence of it. */
  lemma {:induction false} AscendingSubsequence(xs: seq<ObjectFrame>, ys: seq<ObjectFrame>)
    requires AscendingIds(xs) && AscendingIds(ys) && forall x :: x in xs ==> x in ys
    ensures IsSubsequence(xs, ys)
  {
    if xs != [] {
      assert xs[0] in ys;
      var rest := if xs[0] == ys[0] then xs[1..] else xs;
      forall x | x in rest
        ensures x in ys[1..]
      {
        assert x in xs && x in ys;
      }
      AscendingSubsequence(rest, ys[1..]);
    }
  }

  /** The receive pump of every connection has been given some part of what the relay wrote on its streams. */
  ghost predicate FedBy(r: Relay.State, pumps: map<int, seq<ReceivePump.Event>>) {
    forall sock :: sock in pumps ==>
      && ReceivePump.Runs(ReceivePump.START, pumps[sock])
      && forall n :: n in r.ch.hist && r.ch.hist[n].socket == sock ==>
           ReceivePump.At(ReceivePump.Run(ReceivePump.START, pumps[sock]).arrived, n) <= StreamBytes(r.ch.wire, n)
  }

  /** The packets the pump of its connection has filed under stream `n`. */
  ghost function PacketsOf(r: Relay.State, pumps: map<int, seq<ReceivePump.Event>>, n: int): seq<Bytes>
    requires FedBy(r, pumps) && n in r.ch.hist
  {
    var sock := r.ch.hist[n].socket;
    if sock in pumps then ReceivePump.FiledOn(ReceivePump.Run(ReceivePump.START, pumps[sock]).app, n) else []
  }

  /** What the subscriber records from stream `n`: what its parser makes of those packets. */
  ghost function RecordedOn(r: Relay.State, pumps: map<int, seq<ReceivePump.Event>>, n: int): seq<ObjectFrame>
    requires FedBy(r, pumps) && n in r.ch.hist
  {
    Feed(TryParse, [], PacketsOf(r, pumps, n)).0
  }

  /** Everything it records from a subgroup, over all connections it ever had: stream by stream, below `n`. */
  ghost function Recorded(r: Relay.State, pumps: map<int, seq<ReceivePump.Event>>, k: Relay.DownSubgroup, n: int): seq<ObjectFrame>
    requires FedBy(r, pumps)
    decreases n
  {
    if n <= 0 then [] else
      Recorded(r, pumps, k, n - 1) + if n - 1 in r.ch.hist && r.ch.hist[n - 1].key == k then RecordedOn(r, pumps, n - 1) else []
  }

  /** What is filed under a stream is the beginning of what the relay wrote on it. */
  lemma FiledIsPrefix(r: Relay.State, pumps: map<int, seq<ReceivePump.Event>>, n: int)
    requires FedBy(r, pumps) && n in r.ch.hist
    ensures Concat(PacketsOf(r, pumps, n)) <= StreamBytes(r.ch.wire, n)
  {
    hide StreamBytes, ReceivePump.Run, ReceivePump.Runs;
    var sock := r.ch.hist[n].socket;
    if sock in pumps {
      ReceivePump.NoLostWakeup(pumps[sock]);
    }
  }

  /** What every stream of the relay gives its subscriber: objects offered on it, in ascending object id. */
  ghost predicate Gives(r: Relay.State, arrived: seq<ObjectFrame>, n: int, got: seq<ObjectFrame>)
    requires n in r.ch.hist
  {
    var k := r.ch.hist[n].key;
    && AscendingIds(got)
    && forall f :: f in got ==>
         f in r.ch.hist[n].offered && f in arrived && OfSubgroup(f, k)
  }

  lemma RecordedGiven(relayCfg: Relay.Config, res: seq<Relay.Event>, pumps: map<int, seq<ReceivePump.Event>>, n: int)
    requires 0 < relayCfg.chunk && RelayRuns.RunFits(Relay.Initial(relayCfg), [], res)
    requires FedBy(Relay.Run(Relay.Initial(relayCfg), res), pumps) && n in Relay.Run(Relay.Initial(relayCfg), res).ch.hist
    ensures var r := Relay.Run(Relay.Initial(relayCfg), res);
      Gives(r, RelayRuns.ArrivedIn(res), n, RecordedOn(r, pumps, n))
  {
    var r := Relay.Run(Relay.Initial(relayCfg), res);
    hide Relay.Run, RelayRuns.RunFits, StreamBytes, Feed, FedBy;
    FiledIsPrefix(r, pumps, n);
    RelayRuns.ForwardedFaithfully(relayCfg, res, n, PacketsOf(r, pumps, n));
  }

  /** Objects of a subgroup that arrived, offered on its streams below `n`, in ascending object id. */
  ghost predicate Collected(c: Channel<Relay.DownSubgroup>, arrived: seq<ObjectFrame>, k: Relay.DownSubgroup, n: int, all: seq<ObjectFrame>) {
    && AscendingIds(all)
    && forall f :: f in all ==> f in arrived && OfSubgroup(f, k) && OfferedBelow(c, k, n, f)
  }

  /** Stream by stream, what is recorded from a subgroup is in ascending object id. */
  lemma {:induction false} RecordedAscending(r: Relay.State, arrived: seq<ObjectFrame>, pumps: map<int, seq<ReceivePump.Event>>, k: Relay.DownSubgroup, n: int)
    requires FedBy(r, pumps) && RelayInvariant.Apart(r.ch)
    requires forall m :: m in r.ch.hist ==> Gives(r, arrived, m, RecordedOn(r, pumps, m))
    ensures Collected(r.ch, arrived, k, n, Recorded(r, pumps, k, n))
    decreases n
  {
    hide RecordedOn, FedBy, RelayInvariant.Apart, Gives, OfferedBelow;
    if n > 0 {
      RecordedAscending(r, arrived, pumps, k, n - 1);
      var before := Recorded(r, pumps, k, n - 1);
      CollectedKept(r.ch, arrived, k, n, before);
      assert before + [] == before;
      if n - 1 in r.ch.hist && r.ch.hist[n - 1].key == k {
        CollectedMore(r, arrived, k, n, before, RecordedOn(r, pumps, n - 1));
      }
    }
  }

  lemma CollectedKept(c: Channel<Relay.DownSubgroup>, arrived: seq<ObjectFrame>, k: Relay.DownSubgroup, n: int, all: seq<ObjectFrame>)
    requires Collected(c, arrived, k, n - 1, all)
    ensures Collected(c, arrived, k, n, all)
  {
  }

  lemma CollectedMore(r: Relay.State, arrived: seq<ObjectFrame>, k: Relay.DownSubgroup, n: int, before: seq<ObjectFrame>, here: seq<ObjectFrame>)
    requires RelayInvariant.Apart(r.ch) && Collected(r.ch, arrived, k, n - 1, before)
    requires n - 1 in r.ch.hist && r.ch.hist[n - 1].key == k && Gives(r, arrived, n - 1, here)
    ensures Collected(r.ch, arrived, k, n, before + here)
  {
    CollectedKept(r.ch, arrived, k, n, before);
    hide RelayInvariant.Apart;
    forall f, g | f in before && g in here
      ensures f.objectId < g.objectId
    {
      OfferedBefore(r.ch, k, n - 1, f, g);
    }
    AscendingJoined(before, here);
  }

  predicate OfSubgroup(f: ObjectFrame, k: Relay.DownSubgroup) {
    f.trackAlias == k.alias && f.groupId == k.groupId && f.subgroupId == k.subgroupId
  }

  /** The object was offered on a stream of the subgroup numbered below `n`. */
  ghost predicate OfferedBelow(c: Channel<Relay.DownSubgroup>, k: Relay.DownSubgroup, n: int, f: ObjectFrame) {
    exists m :: m in c.hist && m < n && c.hist[m].key == k && f in c.hist[m].offered
  }

  lemma OfferedBefore(c: Channel<Relay.DownSubgroup>, k: Relay.DownSubgroup, n: int, f: ObjectFrame, g: ObjectFrame)
    requires RelayInvariant.Apart(c) && n in c.hist && c.hist[n].key == k
    requires OfferedBelow(c, k, n, f) && g in c.hist[n].offered
    ensures f.objectId < g.objectId
  {
    var m :| m in c.hist && m < n && c.hist[m].key == k && f in c.hist[m].offered;
    assert RelayInvariant.Earlier(c, m, n);
  }

  lemma AscendingJoined(xs: seq<ObjectFrame>, ys: seq<ObjectFrame>)
    requires AscendingIds(xs) && AscendingIds(ys) && forall f, g :: f in xs && g in ys ==> f.objectId < g.objectId
    ensures AscendingIds(xs + ys)
  {
    var all := xs + ys;
    forall i, j | 0 <= i < j < |all|
      ensures all[i].objectId < all[j].objectId
    {
      if i < |xs| <= j {
        assert all[i] in xs && all[j] in ys;
      }
    }
  }

  /**
   * End to end. Whatever the publisher, the relay and the receive pumps of the subscriber go through, and
   * whatever part of the bytes has been delivered between them: all the objects a subscriber records from a
   * subgroup are, unaltered and in strictly ascending object id, a subsequence of what the publisher offered
   * in that subgroup. `id` is any stream the subgroup had from the relay to the subscriber.
   */
  lemma RecordedIsSubsequenceOfOffered(
    cfg: Publisher.Config, pes: seq<Publisher.Event>,
    relayCfg: Relay.Config, res: seq<Relay.Event>,
    delivered: map<int, seq<Bytes>>, sources: seq<int>, pumps: map<int, seq<ReceivePump.Event>>, id: int)
    returns (upstream: int)
    requires 0 < cfg.chunk && PublisherRuns.RunFits(Publisher.Initial(cfg), pes) && DistinctAliases(cfg)
    requires 0 < relayCfg.chunk && SubscribesOnce(Relay.Initial(relayCfg), res)
    requires ArrivedFrom(Publisher.Run(Publisher.Initial(cfg), pes), delivered, sources, RelayRuns.ArrivedIn(res))
    requires FedBy(Relay.Run(Relay.Initial(relayCfg), res), pumps)
    requires id in Relay.Run(Relay.Initial(relayCfg), res).ch.hist
    ensures var (p, r) := (Publisher.Run(Publisher.Initial(cfg), pes), Relay.Run(Relay.Initial(relayCfg), res));
      var k := r.ch.hist[id].key;
      var recorded := Recorded(r, pumps, k, r.ch.nextId);
      && upstream in p.ch.hist && 0 <= p.ch.hist[upstream].key.tid < |p.cfg.tracks|
      && p.cfg.tracks[p.ch.hist[upstream].key.tid].alias == k.alias
      && p.ch.hist[upstream].key.groupId == k.groupId && p.ch.hist[upstream].key.subgroupId == k.subgroupId
      && AscendingIds(recorded)
      && IsSubsequence(recorded, p.ch.hist[upstream].offered)
  {
    var p, r, arrived := Publisher.Run(Publisher.Initial(cfg), pes), Relay.Run(Relay.Initial(relayCfg), res), RelayRuns.ArrivedIn(res);
    PublisherIsSource(cfg, pes, delivered, sources, arrived);
    RelayFits(p, relayCfg, res, sources);
    var f := SomethingArrived(relayCfg, res, id);
    AllGiven(relayCfg, res, pumps);
    hide *;
    var k := r.ch.hist[id].key;
    var recorded := Recorded(r, pumps, k, r.ch.nextId);
    RecordedAscending(r, arrived, pumps, k, r.ch.nextId);
    upstream := UpstreamOf(p, sources, arrived, f);
    RecordedOffered(p, sources, arrived, f, upstream, k, recorded);
    OfferedAscending(cfg, pes, upstream);
    AscendingSubsequence(recorded, p.ch.hist[upstream].offered);
  }

  lemma AllGiven(relayCfg: Relay.Config, res: seq<Relay.Event>, pumps: map<int, seq<ReceivePump.Event>>)
    requires 0 < relayCfg.chunk && RelayRuns.RunFits(Relay.Initial(relayCfg), [], res)
    requires FedBy(Relay.Run(Relay.Initial(relayCfg), res), pumps)
    ensures var r := Relay.Run(Relay.Initial(relayCfg), res);
      && RelayInvariant.Apart(r.ch)
      && forall n :: n in r.ch.hist ==> Gives(r, RelayRuns.ArrivedIn(res), n, RecordedOn(r, pumps, n))
  {
    RelayInvariant.InitialInv(relayCfg);
    RelayRuns.RunInv(Relay.Initial(relayCfg), [], res);
    var r := Relay.Run(Relay.Initial(relayCfg), res);
    hide Relay.Run, RelayRuns.RunFits, Gives, RecordedOn, FedBy, RelayInvariant.Core, RelayInvariant.Listed;
    forall n | n in r.ch.hist
      ensures Gives(r, RelayRuns.ArrivedIn(res), n, RecordedOn(r, pumps, n))
    {
      RecordedGiven(relayCfg, res, pumps, n);
    }
  }

  lemma RecordedOffered(p: Publisher.State, sources: seq<int>, arrived: seq<ObjectFrame>, f: ObjectFrame, upstream: int, k: Relay.DownSubgroup, recorded: seq<ObjectFrame>)
    requires Sourced(p, sources, arrived) && OfSubgroup(f, k)
    requires upstream in p.ch.hist
    requires var s := p.ch.hist[upstream].key;
      0 <= s.tid < |p.cfg.tracks| && p.cfg.tracks[s.tid].alias == f.trackAlias && s.groupId == f.groupId && s.subgroupId == f.subgroupId
    requires forall g :: g in recorded ==> g in arrived && OfSubgroup(g, k)
    ensures forall g :: g in recorded ==> g in p.ch.hist[upstream].offered
  {
    forall g | g in recorded
      ensures g in p.ch.hist[upstream].offered
    {
      SameUpstream(p, sources, arrived, f, upstream, g);
    }
  }

  /** While no subscriber returns, all that is recorded from a subgroup came on one stream. */
  lemma {:induction false} RecordedOnOneStream(r: Relay.State, pumps: map<int, seq<ReceivePump.Event>>, id: int, n: int)
    requires FedBy(r, pumps) && RelayStreams.OnePerKey(r.ch) && id in r.ch.hist
    ensures Recorded(r, pumps, r.ch.hist[id].key, n) == if 0 <= id < n then RecordedOn(r, pumps, id) else []
    decreases n
  {
    hide RecordedOn, FedBy;
    if n > 0 {
      RecordedOnOneStream(r, pumps, id, n - 1);
    }
  }

  lemma PublisherIsSource(cfg: Publisher.Config, pes: seq<Publisher.Event>, delivered: map<int, seq<Bytes>>, sources: seq<int>, arrived: seq<ObjectFrame>)
    requires 0 < cfg.chunk && PublisherRuns.RunFits(Publisher.Initial(cfg), pes) && DistinctAliases(cfg)
    requires ArrivedFrom(Publisher.Run(Publisher.Initial(cfg), pes), delivered, sources, arrived)
    ensures Sourced(Publisher.Run(Publisher.Initial(cfg), pes), sources, arrived)
  {
    var p := Publisher.Run(Publisher.Initial(cfg), pes);
    hide Publisher.Run, PublisherRuns.RunFits, Delivers, DistinctAliases, StreamBytes, Feed;
    forall a, b
      ensures p.cfg == cfg && (a in p.ch.hist && b in p.ch.hist && p.ch.hist[a].key == p.ch.hist[b].key ==> a == b)
    {
      OneStream(cfg, pes, a, b);
    }
    OneStream(cfg, pes, 0, 0);
    forall n | 0 <= n < |sources|
      ensures Delivers(p, sources[n], FromStream(sources, arrived, sources[n]))
    {
      PublisherDelivers(cfg, pes, sources[n], delivered[sources[n]]);
    }
  }

  lemma RelayFits(p: Publisher.State, relayCfg: Relay.Config, res: seq<Relay.Event>, sources: seq<int>)
    requires 0 < relayCfg.chunk && SubscribesOnce(Relay.Initial(relayCfg), res)
    requires Sourced(p, sources, RelayRuns.ArrivedIn(res))
    ensures RelayRuns.RunFits(Relay.Initial(relayCfg), [], res)
  {
    var arrived := RelayRuns.ArrivedIn(res);
    hide Sourced, RelayRuns.Arrivable;
    forall n: nat | n < |arrived|
      ensures RelayRuns.Arrivable(arrived[..n], arrived[n])
    {
      AllArrivable(p, sources, arrived, n);
    }
    assert [] + arrived == arrived;
    RelayRunFits(Relay.Initial(relayCfg), [], res, arrived);
  }

  /** A downstream stream is there because an object of its subgroup has arrived. */
  lemma SomethingArrived(relayCfg: Relay.Config, res: seq<Relay.Event>, id: int) returns (f: ObjectFrame)
    requires 0 < relayCfg.chunk && RelayRuns.RunFits(Relay.Initial(relayCfg), [], res)
    requires id in Relay.Run(Relay.Initial(relayCfg), res).ch.hist
    ensures var k := Relay.Run(Relay.Initial(relayCfg), res).ch.hist[id].key;
      f in RelayRuns.ArrivedIn(res) && OfSubgroup(f, k)
  {
    RelayInvariant.InitialInv(relayCfg);
    RelayRuns.RunInv(Relay.Initial(relayCfg), [], res);
    assert [] + RelayRuns.ArrivedIn(res) == RelayRuns.ArrivedIn(res);
    var h := Relay.Run(Relay.Initial(relayCfg), res).ch.hist[id];
    assert RelayInvariant.CarriesOnly(h, RelayRuns.ArrivedIn(res));
    f := h.offered[0];
  }

  /** The publisher's stream that an arrived object came on, and what it says of the object. */
  lemma UpstreamOf(p: Publisher.State, sources: seq<int>, arrived: seq<ObjectFrame>, f: ObjectFrame) returns (upstream: int)
    requires Sourced(p, sources, arrived) && f in arrived
    ensures upstream in p.ch.hist && f in p.ch.hist[upstream].offered
    ensures var k := p.ch.hist[upstream].key;
      0 <= k.tid < |p.cfg.tracks| && p.cfg.tracks[k.tid].alias == f.trackAlias && k.groupId == f.groupId && k.subgroupId == f.subgroupId
  {
    var n :| 0 <= n < |arrived| && arrived[n] == f;
    upstream := sources[n];
    ArrivalDelivered(p, sources, arrived, n);
    assert Delivers(p, upstream, FromStream(sources, arrived, upstream));
  }

  /** Two objects of one subgroup came on the same stream. */
  lemma SameUpstream(p: Publisher.State, sources: seq<int>, arrived: seq<ObjectFrame>, f: ObjectFrame, upstream: int, g: ObjectFrame)
    requires Sourced(p, sources, arrived) && g in arrived && RelayRuns.SameSubgroup(f, g)
    requires upstream in p.ch.hist
    requires var k := p.ch.hist[upstream].key;
      0 <= k.tid < |p.cfg.tracks| && p.cfg.tracks[k.tid].alias == f.trackAlias && k.groupId == f.groupId && k.subgroupId == f.subgroupId
    ensures g in p.ch.hist[upstream].offered
  {
    var other := UpstreamOf(p, sources, arrived, g);
    assert p.ch.hist[other].key == p.ch.hist[upstream].key;
  }

  lemma OfferedAscending(cfg: Publisher.Config, pes: seq<Publisher.Event>, id: int)
    requires 0 < cfg.chunk && PublisherRuns.RunFits(Publisher.Initial(cfg), pes)
    requires id in Publisher.Run(Publisher.Initial(cfg), pes).ch.hist
    ensures AscendingIds(Publisher.Run(Publisher.Initial(cfg), pes).ch.hist[id].offered)
  {
    PublisherInvariant.InitialInv(cfg);
    PublisherRuns.RunInv(Publisher.Initial(cfg), pes);
    assert StreamOk(Publisher.Run(Publisher.Initial(cfg), pes).ch.hist[id]);
  }
}
