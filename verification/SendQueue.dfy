/**
 The part of the send path that the publisher and the relay share: objects waiting in priority order,
 one stream per subgroup key, and the commands handed to the QUIC socket so far.

 `hist` and `wire` record the past: per stream ever opened what was offered and fully written on it, and
 every command in order. They never steer an operation; the theorems are stated about them.
 */
module SendQueue {
  import opened Bytes
  import opened ByteStream
  import opened MoqFraming

  datatype Item<K> = Item(
    key: K,
    stream: int,
    priority: int,
    frame: ObjectFrame,
    bytes: Bytes,
    createdAt: int,
    timeout: int,
    sentOffset: nat)
  {
    /** Older than its delivery timeout. A timeout of 0 means the track is fully reliable. */
    predicate Stale(now: int) {
      timeout > 0 && now - createdAt > timeout
    }
  }

  datatype Command =
    | Send(stream: int, bytes: Bytes, priority: int)
    | Reset(stream: int, code: int)
    | PublishDone(socket: int, trackId: int, trackAlias: Bytes, status: int)

  /** The past of one stream. `part` is the object partly written, of which `off` bytes are out. */
  datatype Stream<K> = Stream(
    key: K,
    socket: int,
    priority: int,
    offered: seq<ObjectFrame>,
    sent: seq<ObjectFrame>,
    part: ObjectFrame,
    off: nat)

  datatype Channel<!K(==)> = Channel(
    open: map<K, int>,
    reset: map<K, int>,
    nextId: int,
    queue: map<int, seq<Item<K>>>,
    wire: seq<Command>,
    hist: map<int, Stream<K>>)
  {
    function Items(s: int): seq<Item<K>> {
      if s in queue then queue[s] else []
    }

    predicate IsOpen(id: int) {
      id in hist && hist[id].key in open && open[hist[id].key] == id
    }
  }

  /** The publisher numbers its data streams 4, 8, 12, …, the relay 1, 5, 9, … */
  function EmptyChannel<K>(sockets: set<int>, firstId: int): Channel<K> {
    Channel(map[], map[], firstId, map s | s in sockets :: [], [], map[])
  }

  // ---- Queues ----

  function InsertPosition<K>(q: seq<Item<K>>, priority: int): (k: nat)
    ensures k <= |q|
    ensures forall i :: 0 <= i < k ==> q[i].priority <= priority
    ensures k < |q| ==> priority < q[k].priority
  {
    if q == [] || priority < q[0].priority then 0 else 1 + InsertPosition(q[1..], priority)
  }

  /** First in, first out within a priority; lower numbers first. */
  function Insert<K>(q: seq<Item<K>>, item: Item<K>): (r: seq<Item<K>>)
    ensures |r| == |q| + 1
    ensures var k := InsertPosition(q, item.priority);
      forall i :: 0 <= i < |r| ==> r[i] == if i < k then q[i] else if i == k then item else q[i - 1]
  {
    var k := InsertPosition(q, item.priority);
    q[..k] + [item] + q[k..]
  }

  function Remove<T>(q: seq<T>, i: nat): (r: seq<T>)
    requires i < |q|
    ensures |r| == |q| - 1
    ensures forall j :: 0 <= j < |r| ==> r[j] == if j < i then q[j] else q[j + 1]
  {
    q[..i] + q[i + 1..]
  }

  ghost predicate Ordered<K>(q: seq<Item<K>>) {
    forall i, j :: 0 <= i < j < |q| ==> InOrder(q[i], q[j])
  }

  /** `a` may stand before `b`: only the first item of a priority can be partly written, and the objects
      of one stream stand in ascending object id. */
  predicate InOrder<K>(a: Item<K>, b: Item<K>) {
    && a.priority <= b.priority
    && (a.priority == b.priority ==> b.sentOffset == 0)
    && (a.stream == b.stream ==> a.priority == b.priority && a.frame.objectId < b.frame.objectId)
  }

  // ---- Operations ----

  /** Queue an object on its subgroup's stream, opening the stream if there is none. */
  function Accept<K>(c: Channel<K>, s: int, k: K, f: ObjectFrame, timeout: int): Channel<K> {
    var c1 := if k in c.open then c else OpenStream(c, s, k, f);
    Enqueue(c1, s, k, f, timeout)
  }

  function OpenStream<K>(c: Channel<K>, s: int, k: K, f: ObjectFrame): Channel<K> {
    c.(open := c.open[k := c.nextId],
       nextId := c.nextId + 4,
       hist := c.hist[c.nextId := Stream(k, s, f.priority, [], [], f, 0)])
  }

  function NewItem<K>(k: K, stream: int, f: ObjectFrame, timeout: int): Item<K> {
    Item(k, stream, f.priority, f, Encode(f), f.creationTime, timeout, 0)
  }

  function Enqueue<K>(c: Channel<K>, s: int, k: K, f: ObjectFrame, timeout: int): Channel<K>
    requires k in c.open
  {
    var id := c.open[k];
    c.(queue := c.queue[s := Insert(c.Items(s), NewItem(k, id, f, timeout))],
       hist := OfferedOn(c.hist, id, f))
  }

  function OfferedOn<K>(hist: map<int, Stream<K>>, id: int, f: ObjectFrame): map<int, Stream<K>> {
    if id in hist then hist[id := hist[id].(offered := hist[id].offered + [f])] else hist
  }

  function Drop<K>(c: Channel<K>, s: int, i: nat): Channel<K>
    requires i < |c.Items(s)|
  {
    c.(queue := c.queue[s := Remove(c.Items(s), i)])
  }

  /** RESET_STREAM: abandons the stream and with it the rest of its subgroup. */
  function ResetStream<K>(c: Channel<K>, k: K, stream: int, code: int): Channel<K> {
    c.(wire := c.wire + [Reset(stream, code)],
       reset := c.reset[k := code],
       open := c.open - {k})
  }

  function ChunkSize<K>(item: Item<K>, chunk: int): int {
    Min(|item.bytes| - item.sentOffset, chunk)
  }

  predicate Unfinished<K>(item: Item<K>) {
    item.sentOffset < |item.bytes|
  }

  /** The command that writes the next slice of an object on its stream. */
  function SliceCommand<K>(item: Item<K>, chunk: int): Command
    requires Unfinished(item) && 0 < chunk
  {
    Send(item.stream, item.bytes[item.sentOffset..item.sentOffset + ChunkSize(item, chunk)],
         QuicPriorityOf(item.priority))
  }

  /** Write the next slice of the first queued object; once it is complete it leaves the queue. */
  function WriteFront<K>(c: Channel<K>, s: int, chunk: int): Channel<K>
    requires 0 < |c.Items(s)| && Unfinished(c.Items(s)[0]) && 0 < chunk
  {
    var item := c.Items(s)[0];
    var end := item.sentOffset + ChunkSize(item, chunk);
    var c1 := c.(wire := c.wire + [SliceCommand(item, chunk)], hist := HistAfter(c.hist, item, end));
    if end == |item.bytes| then Drop(c1, s, 0)
    else c1.(queue := c.queue[s := c.Items(s)[0 := item.(sentOffset := end)]])
  }

  function HistAfter<K>(hist: map<int, Stream<K>>, item: Item<K>, end: nat): map<int, Stream<K>> {
    if item.stream in hist then hist[item.stream := RecordWrite(hist[item.stream], item, end)] else hist
  }

  function RecordWrite<K>(h: Stream<K>, item: Item<K>, end: nat): Stream<K> {
    if end == |item.bytes| then h.(sent := h.sent + [item.frame], off := 0)
    else h.(part := item.frame, off := end)
  }

  ghost predicate AllUnfinished<K>(q: seq<Item<K>>) {
    forall i :: 0 <= i < |q| ==> Unfinished(q[i])
  }

  /** The bytes a queue has still to write, and its objects. */
  function Work<K>(q: seq<Item<K>>): int {
    if q == [] then 0 else |q[0].bytes| - q[0].sentOffset + 1 + Work(q[1..])
  }

  lemma WorkNonNegative<K>(q: seq<Item<K>>)
    requires AllUnfinished(q)
    ensures 0 <= Work(q)
  {
  }

  // ---- What holds of every reachable channel ----

  function StreamBytes(wire: seq<Command>, id: int): Bytes {
    if wire == [] then []
    else
      var last := wire[|wire| - 1];
      StreamBytes(wire[..|wire| - 1], id) + (if last.Send? && last.stream == id then last.bytes else [])
  }

  predicate AscendingIds(fs: seq<ObjectFrame>) {
    forall i, j :: 0 <= i < j < |fs| ==> fs[i].objectId < fs[j].objectId
  }

  ghost predicate Below(fs: seq<ObjectFrame>, id: int) {
    forall f :: f in fs ==> f.objectId < id
  }

  ghost predicate StreamOk<K>(h: Stream<K>) {
    && AscendingIds(h.offered) && (forall f :: f in h.offered ==> Framable(f))
    && AscendingIds(h.sent) && (forall f :: f in h.sent ==> f in h.offered)
    && Framable(h.part) && h.off < |Encode(h.part)|
    && (h.off > 0 ==> h.part in h.offered && Below(h.sent, h.part.objectId))
  }

  /** The bytes on a stream: whole frames in ascending object id, then a proper prefix of one frame. */
  function Written<K>(h: Stream<K>): Bytes {
    if h.off < |Encode(h.part)| then EncodeAll(Encode, h.sent) + Encode(h.part)[..h.off] else []
  }

  ghost predicate ItemOk<K>(c: Channel<K>, s: int, item: Item<K>) {
    && item.stream in c.hist
    && var h := c.hist[item.stream];
    && h.key == item.key && h.socket == s && h.priority == item.priority
    && item.bytes == Encode(item.frame) && item.sentOffset < |item.bytes|
    && item.frame in h.offered
    && (c.IsOpen(item.stream) || item.key in c.reset)
    && (c.IsOpen(item.stream) ==> ItemUnsent(h, item))
  }

  ghost predicate ItemUnsent<K>(h: Stream<K>, item: Item<K>) {
    && Below(h.sent, item.frame.objectId)
    && (item.sentOffset > 0 ==> h.off == item.sentOffset && h.part == item.frame)
  }

  ghost predicate Streams<K>(c: Channel<K>) {
    && 1 <= c.nextId
    && (forall id :: id in c.hist ==> 1 <= id < c.nextId && id % 4 == c.nextId % 4)
    && (forall k :: k in c.open ==> k !in c.reset && c.open[k] in c.hist && c.hist[c.open[k]].key == k)
  }

  ghost predicate Queues<K>(c: Channel<K>) {
    forall s :: s in c.queue ==>
      Ordered(c.queue[s]) && forall i :: 0 <= i < |c.queue[s]| ==> ItemOk(c, s, c.queue[s][i])
  }

  ghost predicate PartialBuffered<K>(c: Channel<K>, id: int) {
    c.IsOpen(id) && c.hist[id].off > 0 ==>
      exists i :: 0 <= i < |c.Items(c.hist[id].socket)| && PartialItem(c, id, c.Items(c.hist[id].socket)[i])
  }

  predicate PartialItem<K>(c: Channel<K>, id: int, item: Item<K>)
    requires id in c.hist
  {
    item.stream == id && item.sentOffset == c.hist[id].off
  }

  ghost predicate Wire<K>(c: Channel<K>) {
    && (forall id :: id in c.hist ==> StreamOk(c.hist[id]) && StreamBytes(c.wire, id) == Written(c.hist[id]))
    && (forall id :: id in c.hist ==> PartialBuffered(c, id))
  }

  ghost predicate NoSendAfterReset(wire: seq<Command>) {
    forall i, j :: 0 <= i < j < |wire| && wire[i].Reset? && wire[j].Send? ==> wire[i].stream != wire[j].stream
  }

  ghost predicate NeverReset(wire: seq<Command>, id: int) {
    forall i :: 0 <= i < |wire| && wire[i].Reset? ==> wire[i].stream != id
  }

  ghost predicate Discipline<K>(c: Channel<K>) {
    && NoSendAfterReset(c.wire)
    && (forall id :: c.IsOpen(id) ==> NeverReset(c.wire, id))
    && (forall i :: 0 <= i < |c.wire| && !c.wire[i].PublishDone? ==> c.wire[i].stream in c.hist)
  }

  ghost predicate Valid<K>(c: Channel<K>) {
    Streams(c) && Queues(c) && Wire(c) && Discipline(c)
  }

  // ---- Preservation ----

  lemma EmptyValid<K>(sockets: set<int>, firstId: int)
    requires 1 <= firstId
    ensures Valid(EmptyChannel<K>(sockets, firstId))
  {
  }

  lemma StreamBytesAppend(wire: seq<Command>, cmd: Command, id: int)
    ensures StreamBytes(wire + [cmd], id)
         == StreamBytes(wire, id) + (if cmd.Send? && cmd.stream == id then cmd.bytes else [])
  {
    assert (wire + [cmd])[..|wire|] == wire;
  }

  lemma {:induction false} NothingOnUnknownStream(wire: seq<Command>, id: int)
    requires forall i :: 0 <= i < |wire| && wire[i].Send? ==> wire[i].stream != id
    ensures StreamBytes(wire, id) == []
  {
    if wire != [] {
      NothingOnUnknownStream(wire[..|wire| - 1], id);
    }
  }

  lemma OpenStreamQueues<K>(c: Channel<K>, s: int, k: K, f: ObjectFrame)
    requires Streams(c) && Queues(c) && k !in c.open && k !in c.reset
    ensures Queues(OpenStream(c, s, k, f))
  {
    var c1 := OpenStream(c, s, k, f);
    forall s1, i | s1 in c1.queue && 0 <= i < |c1.queue[s1]|
      ensures ItemOk(c1, s1, c1.queue[s1][i])
    {
      var item := c.queue[s1][i];
      assert ItemOk(c, s1, item);
      assert item.stream != c.nextId && item.key != k;
      assert c1.IsOpen(item.stream) == c.IsOpen(item.stream);
    }
  }

  lemma OpenStreamWire<K>(c: Channel<K>, s: int, k: K, f: ObjectFrame)
    requires Streams(c) && Wire(c) && Discipline(c) && k !in c.open && Framable(f)
    ensures Wire(OpenStream(c, s, k, f))
  {
    var c1 := OpenStream(c, s, k, f);
    hide Written, StreamOk, StreamBytes, PartialBuffered, Encode;
    NothingOnUnknownStream(c.wire, c.nextId);
    NothingWritten(Stream(k, s, f.priority, [], [], f, 0));
    forall id | id in c.hist
      ensures PartialBuffered(c1, id)
    {
      assert c1.hist[id] == c.hist[id] && c1.IsOpen(id) == c.IsOpen(id);
      SamePartial(c, c1, id);
    }
    NothingPartial(c1, c.nextId);
  }

  lemma NothingWritten<K>(h: Stream<K>)
    requires h.offered == h.sent == [] && h.off == 0 && Framable(h.part)
    ensures StreamOk(h) && Written(h) == []
  {
  }

  lemma SamePartial<K>(c: Channel<K>, c1: Channel<K>, id: int)
    requires id in c.hist && id in c1.hist && c1.hist[id] == c.hist[id] && c1.IsOpen(id) == c.IsOpen(id)
    requires PartialBuffered(c, id) && c1.queue == c.queue
    ensures PartialBuffered(c1, id)
  {
    assert forall i :: 0 <= i < |c.Items(c.hist[id].socket)| ==>
      (PartialItem(c, id, c.Items(c.hist[id].socket)[i]) <==> PartialItem(c1, id, c1.Items(c1.hist[id].socket)[i]));
  }

  lemma NothingPartial<K>(c: Channel<K>, id: int)
    requires id in c.hist && c.hist[id].off == 0
    ensures PartialBuffered(c, id)
  {
  }

  lemma OpenStreamValid<K>(c: Channel<K>, s: int, k: K, f: ObjectFrame)
    requires Valid(c) && k !in c.open && k !in c.reset && Framable(f)
    ensures Valid(OpenStream(c, s, k, f))
  {
    hide Queues, Wire, Streams, Discipline, OpenStream, Framable;
    OpenStreamQueues(c, s, k, f);
    OpenStreamWire(c, s, k, f);
    OpenStreamRest(c, s, k, f);
  }

  lemma OpenStreamRest<K>(c: Channel<K>, s: int, k: K, f: ObjectFrame)
    requires Streams(c) && Discipline(c) && k !in c.open && k !in c.reset
    ensures Streams(OpenStream(c, s, k, f)) && Discipline(OpenStream(c, s, k, f))
  {
    var c1 := OpenStream(c, s, k, f);
    assert (c.nextId + 4) % 4 == c.nextId % 4;
    forall id | c1.IsOpen(id)
      ensures NeverReset(c1.wire, id)
    {
      assert id != c.nextId ==> c.IsOpen(id);
    }
  }

  ghost predicate Offerable<K>(c: Channel<K>, s: int, k: K, f: ObjectFrame) {
    && k !in c.reset && Framable(f)
    && (k in c.open && c.open[k] in c.hist ==>
          var h := c.hist[c.open[k]];
          h.socket == s && h.priority == f.priority && Below(h.offered, f.objectId))
  }

  lemma InsertOrdered<K>(q: seq<Item<K>>, item: Item<K>)
    requires Ordered(q) && item.sentOffset == 0
    requires forall i :: 0 <= i < |q| && q[i].stream == item.stream ==>
      q[i].priority == item.priority && q[i].frame.objectId < item.frame.objectId
    ensures Ordered(Insert(q, item))
  {
    var k := InsertPosition(q, item.priority);
    var r := Insert(q, item);
    forall i, j | 0 <= i < j < |r|
      ensures InOrder(r[i], r[j])
    {
      if j < k {
        assert InOrder(q[i], q[j]);
      } else if i < k < j {
        assert InOrder(q[i], q[j - 1]);
      } else if k < i {
        assert InOrder(q[i - 1], q[j - 1]);
      } else if i == k {
        assert InOrder(q[k], q[j - 1]) || k == j - 1;
      }
    }
  }

  lemma EnqueueKeepsItem<K>(c: Channel<K>, s: int, k: K, f: ObjectFrame, timeout: int, s1: int, item: Item<K>)
    requires k in c.open && ItemOk(c, s1, item)
    ensures ItemOk(Enqueue(c, s, k, f, timeout), s1, item)
  {
    hide Encode, Framable, Insert, NewItem, ItemUnsent;
    var c1, n := Enqueue(c, s, k, f, timeout), item.stream;
    assert c1.IsOpen(n) == c.IsOpen(n);
    MoreOffered(c, c.open[k], f, n);
    UnsentKept(c.hist[n], c1.hist[n], item);
  }

  /** One more object offered on a stream changes nothing else that is recorded of it, or of another. */
  lemma MoreOffered<K>(c: Channel<K>, id: int, f: ObjectFrame, n: int)
    requires n in c.hist
    ensures var h, h1 := c.hist[n], OfferedOn(c.hist, id, f)[n];
      h1 == h.(offered := h1.offered) && forall g :: g in h.offered ==> g in h1.offered
  {
  }

  lemma UnsentKept<K>(h: Stream<K>, h1: Stream<K>, item: Item<K>)
    requires h1 == h.(offered := h1.offered)
    ensures ItemUnsent(h1, item) == ItemUnsent(h, item)
  {
  }

  lemma EnqueuedItemOk<K>(c: Channel<K>, s: int, k: K, f: ObjectFrame, timeout: int)
    requires Streams(c) && k in c.open && Offerable(c, s, k, f) && StreamOk(c.hist[c.open[k]])
    ensures ItemOk(Enqueue(c, s, k, f, timeout), s, NewItem(k, c.open[k], f, timeout))
  {
    var h := c.hist[c.open[k]];
    assert forall g :: g in h.sent ==> g in h.offered;
  }

  lemma EnqueueQueues<K>(c: Channel<K>, s: int, k: K, f: ObjectFrame, timeout: int)
    requires Valid(c) && k in c.open && Offerable(c, s, k, f)
    ensures Queues(Enqueue(c, s, k, f, timeout))
  {
    hide Encode, Framable, Written, StreamOk;
    var c1, id, q := Enqueue(c, s, k, f, timeout), c.open[k], c.Items(s);
    var item := NewItem(k, id, f, timeout);
    forall i | 0 <= i < |q| && q[i].stream == id
      ensures q[i].priority == f.priority && q[i].frame.objectId < f.objectId
    {
      assert ItemOk(c, s, q[i]);
    }
    InsertOrdered(q, item);
    EnqueuedItemOk(c, s, k, f, timeout);
    forall s1, i | s1 in c1.queue && 0 <= i < |c1.queue[s1]|
      ensures ItemOk(c1, s1, c1.queue[s1][i])
    {
      var p := InsertPosition(q, f.priority);
      if s1 != s || i != p {
        var it := c.queue[s1][if s1 == s && i > p then i - 1 else i];
        assert ItemOk(c, s1, it);
        EnqueueKeepsItem(c, s, k, f, timeout, s1, it);
        assert c1.queue[s1][i] == it;
      }
    }
  }

  lemma EnqueuePartial<K>(c: Channel<K>, s: int, k: K, f: ObjectFrame, timeout: int, n: int)
    requires k in c.open && n in c.hist && PartialBuffered(c, n)
    ensures PartialBuffered(Enqueue(c, s, k, f, timeout), n)
  {
    hide Encode, Framable, NewItem, Insert;
    var c1 := Enqueue(c, s, k, f, timeout);
    MoreOffered(c, c.open[k], f, n);
    if c1.IsOpen(n) && c.hist[n].off > 0 {
      var t := c.hist[n].socket;
      assert c.IsOpen(n);
      var i :| 0 <= i < |c.Items(t)| && PartialItem(c, n, c.Items(t)[i]);
      var j := if t == s then StillThere(c.Items(s), NewItem(k, c.open[k], f, timeout), i) else i;
      assert c1.Items(t)[j] == c.Items(t)[i];
      assert PartialItem(c1, n, c1.Items(t)[j]);
    }
  }

  /** Where an item stands once another is inserted. */
  function StillThere<K>(q: seq<Item<K>>, item: Item<K>, i: nat): (j: nat)
    requires i < |q|
    ensures j < |Insert(q, item)| && Insert(q, item)[j] == q[i]
  {
    if i >= InsertPosition(q, item.priority) then i + 1 else i
  }

  lemma OfferedStreamOk<K>(h: Stream<K>, f: ObjectFrame)
    requires StreamOk(h) && Framable(f) && Below(h.offered, f.objectId)
    ensures StreamOk(h.(offered := h.offered + [f]))
  {
    hide Encode, Framable;
  }

  lemma EnqueueWire<K>(c: Channel<K>, s: int, k: K, f: ObjectFrame, timeout: int)
    requires Wire(c) && k in c.open && Offerable(c, s, k, f)
    ensures Wire(Enqueue(c, s, k, f, timeout))
  {
    hide Encode, Framable, EncodeAll, StreamOk, PartialBuffered, Insert;
    var c1 := Enqueue(c, s, k, f, timeout);
    forall n | n in c1.hist
      ensures StreamOk(c1.hist[n]) && StreamBytes(c1.wire, n) == Written(c1.hist[n]) && PartialBuffered(c1, n)
    {
      if n == c.open[k] {
        OfferedStreamOk(c.hist[n], f);
      }
      EnqueuePartial(c, s, k, f, timeout, n);
    }
  }

  lemma EnqueueValid<K>(c: Channel<K>, s: int, k: K, f: ObjectFrame, timeout: int)
    requires Valid(c) && k in c.open && Offerable(c, s, k, f)
    ensures Valid(Enqueue(c, s, k, f, timeout))
  {
    hide Queues, Wire, Insert;
    EnqueueQueues(c, s, k, f, timeout);
    EnqueueWire(c, s, k, f, timeout);
    var c1 := Enqueue(c, s, k, f, timeout);
    assert c1.wire == c.wire && c1.hist.Keys == c.hist.Keys && c1.open == c.open;
    assert forall i :: c1.IsOpen(i) == c.IsOpen(i);
  }

  lemma AcceptValid<K>(c: Channel<K>, s: int, k: K, f: ObjectFrame, timeout: int)
    requires Valid(c) && Offerable(c, s, k, f)
    ensures Valid(Accept(c, s, k, f, timeout))
  {
    if k in c.open {
      EnqueueValid(c, s, k, f, timeout);
    } else {
      OpenStreamValid(c, s, k, f);
      var c1 := OpenStream(c, s, k, f);
      assert c1.hist[c1.open[k]] == Stream(k, s, f.priority, [], [], f, 0);
      EnqueueValid(c1, s, k, f, timeout);
    }
  }

  /** An object may leave unsent when nothing of it is out, or when its stream was reset. */
  ghost predicate Droppable<K>(c: Channel<K>, item: Item<K>) {
    item.sentOffset == 0 || item.key in c.reset
  }

  lemma RemoveOrdered<K>(q: seq<Item<K>>, i: nat)
    requires Ordered(q) && i < |q|
    ensures Ordered(Remove(q, i))
  {
    var r := Remove(q, i);
    forall a, b | 0 <= a < b < |r|
      ensures InOrder(r[a], r[b])
    {
      assert InOrder(q[if a < i then a else a + 1], q[if b < i then b else b + 1]);
    }
  }

  lemma DropQueues<K>(c: Channel<K>, s: int, i: nat)
    requires Queues(c) && i < |c.Items(s)|
    ensures Queues(Drop(c, s, i))
  {
    var c1 := Drop(c, s, i);
    RemoveOrdered(c.Items(s), i);
    forall s1, j | s1 in c1.queue && 0 <= j < |c1.queue[s1]|
      ensures ItemOk(c1, s1, c1.queue[s1][j])
    {
      var it := c1.queue[s1][j];
      assert it == c.queue[s1][if s1 == s && j >= i then j + 1 else j];
      assert ItemOk(c, s1, it);
      assert c1.IsOpen(it.stream) == c.IsOpen(it.stream);
    }
  }

  lemma DropPartial<K>(c: Channel<K>, s: int, i: nat, n: int)
    requires n in c.hist && PartialBuffered(c, n) && i < |c.Items(s)|
    requires c.Items(s)[i].sentOffset == 0 || !c.IsOpen(c.Items(s)[i].stream)
    ensures PartialBuffered(Drop(c, s, i), n)
  {
    var c1 := Drop(c, s, i);
    if c1.IsOpen(n) && c.hist[n].off > 0 {
      var t := c.hist[n].socket;
      assert c.IsOpen(n);
      var j :| 0 <= j < |c.Items(t)| && PartialItem(c, n, c.Items(t)[j]);
      assert PartialItem(c1, n, c1.Items(t)[if t == s && j > i then j - 1 else j]);
    }
  }

  lemma DropValid<K>(c: Channel<K>, s: int, i: nat)
    requires Valid(c) && i < |c.Items(s)| && Droppable(c, c.Items(s)[i])
    ensures Valid(Drop(c, s, i))
  {
    var c1 := Drop(c, s, i);
    DropQueues(c, s, i);
    assert ItemOk(c, s, c.Items(s)[i]);
    forall n | n in c1.hist
      ensures PartialBuffered(c1, n)
    {
      DropPartial(c, s, i, n);
    }
    assert forall n :: c1.IsOpen(n) == c.IsOpen(n);
  }

  lemma ResetStreamQueues<K>(c: Channel<K>, k: K, stream: int, code: int)
    requires Queues(c)
    ensures Queues(ResetStream(c, k, stream, code))
  {
    var c1 := ResetStream(c, k, stream, code);
    forall s, i | s in c1.queue && 0 <= i < |c1.queue[s]|
      ensures ItemOk(c1, s, c1.queue[s][i])
    {
      assert ItemOk(c, s, c.queue[s][i]);
    }
  }

  /** A command that carries no data leaves what was written as it is. */
  lemma NoDataWire<K>(c: Channel<K>, c1: Channel<K>, cmd: Command)
    requires Wire(c) && !cmd.Send?
    requires c1.wire == c.wire + [cmd] && c1.hist == c.hist && c1.queue == c.queue
    requires forall n :: c1.IsOpen(n) ==> c.IsOpen(n)
    ensures Wire(c1)
  {
    forall n | n in c1.hist
      ensures StreamBytes(c1.wire, n) == Written(c1.hist[n]) && PartialBuffered(c1, n)
    {
      StreamBytesAppend(c.wire, cmd, n);
      assert PartialBuffered(c, n);
      assert forall i :: 0 <= i < |c.Items(c.hist[n].socket)| ==>
        (PartialItem(c, n, c.Items(c.hist[n].socket)[i]) <==> PartialItem(c1, n, c1.Items(c1.hist[n].socket)[i]));
    }
  }

  lemma ResetStreamValid<K>(c: Channel<K>, k: K, stream: int, code: int)
    requires Valid(c) && stream in c.hist && c.hist[stream].key == k
    requires k in c.open ==> c.open[k] == stream
    ensures Valid(ResetStream(c, k, stream, code))
  {
    hide Encode, Framable, EncodeAll, Written;
    var c1 := ResetStream(c, k, stream, code);
    assert forall n :: c1.IsOpen(n) <==> c.IsOpen(n) && n != stream;
    AppendDiscipline(c, c1, Reset(stream, code));
    ResetStreamQueues(c, k, stream, code);
    NoDataWire(c, c1, Reset(stream, code));
  }

  /** A control message leaves the data streams alone. */
  lemma ControlValid<K>(c: Channel<K>, cmd: Command)
    requires Valid(c) && cmd.PublishDone?
    ensures Valid(c.(wire := c.wire + [cmd]))
  {
    hide Encode, Framable, EncodeAll, Written;
    var c1 := c.(wire := c.wire + [cmd]);
    assert forall n :: c1.IsOpen(n) == c.IsOpen(n);
    NoDataWire(c, c1, cmd);
    AppendDiscipline(c, c1, cmd);
    forall s, i | s in c1.queue && 0 <= i < |c1.queue[s]|
      ensures ItemOk(c1, s, c1.queue[s][i])
    {
      assert ItemOk(c, s, c.queue[s][i]);
    }
  }

  /** The first queued object continues its stream exactly where the stream stops. */
  lemma FrontContinues<K>(c: Channel<K>, s: int)
    requires Valid(c) && 0 < |c.Items(s)| && c.IsOpen(c.Items(s)[0].stream)
    ensures var item := c.Items(s)[0];
      ItemOk(c, s, item) && c.hist[item.stream].off == item.sentOffset
  {
    var q := c.Items(s);
    var id := q[0].stream;
    assert ItemOk(c, s, q[0]);
    assert PartialBuffered(c, id);
    forall i | 0 < i < |q|
      ensures PartialItem(c, id, q[i]) ==> c.hist[id].off == 0
    {
      assert InOrder(q[0], q[i]);
    }
  }

  ghost predicate Writable<K>(c: Channel<K>, s: int) {
    0 < |c.Items(s)| && c.IsOpen(c.Items(s)[0].stream)
  }

  ghost predicate Continues<K>(h: Stream<K>, item: Item<K>, end: nat) {
    && StreamOk(h) && item.frame in h.offered && ItemUnsent(h, item)
    && item.bytes == Encode(item.frame)
    && h.off == item.sentOffset < end <= |item.bytes|
  }

  lemma RecordedStreamOk<K>(h: Stream<K>, item: Item<K>, end: nat)
    requires Continues(h, item, end)
    ensures StreamOk(RecordWrite(h, item, end))
  {
    hide Encode, Framable;
  }

  /** A write adds to its stream exactly the slice written. */
  lemma WrittenGrows<K>(h: Stream<K>, item: Item<K>, end: nat)
    requires Continues(h, item, end)
    ensures Written(RecordWrite(h, item, end)) == Written(h) + item.bytes[item.sentOffset..end]
  {
    hide Encode, Framable, AscendingIds, Below;
    var h1 := RecordWrite(h, item, end);
    var before, slice := item.bytes[..item.sentOffset], item.bytes[item.sentOffset..end];
    assert item.bytes[..end] == before + slice;
    assert Encode(h.part)[..h.off] == before;
    if end == |item.bytes| {
      EncodeAllAppend(Encode, h.sent, item.frame);
      assert item.bytes[..end] == item.bytes;
      assert EncodeAll(Encode, h.sent) + before + slice == EncodeAll(Encode, h.sent) + (before + slice);
      assert Encode(h1.part)[..0] == [];
    }
  }

  lemma WriteKeepsItem<K>(c: Channel<K>, s: int, chunk: int, s1: int, item: Item<K>)
    requires Writable(c, s) && 0 < chunk && ItemOk(c, s, c.Items(s)[0])
    requires ItemOk(c, s1, item)
    requires item.stream == c.Items(s)[0].stream ==>
      item.sentOffset == 0 && c.Items(s)[0].frame.objectId < item.frame.objectId
    ensures ItemOk(WriteFront(c, s, chunk), s1, item)
  {
    hide Encode, Framable;
    var c1 := WriteFront(c, s, chunk);
    assert c1.IsOpen(item.stream) == c.IsOpen(item.stream);
  }

  lemma WrittenItemOk<K>(c: Channel<K>, s: int, chunk: int)
    requires Writable(c, s) && 0 < chunk && ItemOk(c, s, c.Items(s)[0])
    requires ChunkSize(c.Items(s)[0], chunk) == chunk < |c.Items(s)[0].bytes| - c.Items(s)[0].sentOffset
    ensures var c1 := WriteFront(c, s, chunk);
      0 < |c1.Items(s)| && ItemOk(c1, s, c1.Items(s)[0])
  {
    hide Encode, Framable;
    var c1, item := WriteFront(c, s, chunk), c.Items(s)[0];
    assert c1.IsOpen(item.stream) == c.IsOpen(item.stream);
  }

  lemma WriteFrontOrdered<K>(c: Channel<K>, s: int, chunk: int)
    requires Ordered(c.Items(s)) && Writable(c, s) && 0 < chunk && ItemOk(c, s, c.Items(s)[0])
    ensures Ordered(WriteFront(c, s, chunk).Items(s))
  {
    hide Encode, Framable;
    var c1, q := WriteFront(c, s, chunk), c.Items(s);
    var q1 := c1.Items(s);
    forall i, j | 0 <= i < j < |q1|
      ensures InOrder(q1[i], q1[j])
    {
      assert InOrder(q[i + |q| - |q1|], q[j + |q| - |q1|]);
    }
  }

  lemma WriteFrontQueues<K>(c: Channel<K>, s: int, chunk: int)
    requires Queues(c) && Writable(c, s) && 0 < chunk && ItemOk(c, s, c.Items(s)[0])
    ensures Queues(WriteFront(c, s, chunk))
  {
    assert Unfinished(c.Items(s)[0]);
    hide ItemOk, Encode, Framable, WriteFront, SliceCommand;
    var c1, q := WriteFront(c, s, chunk), c.Items(s);
    var q1 := c1.Items(s);
    WriteFrontItems(c, s, chunk);
    WriteFrontOrdered(c, s, chunk);
    forall s1, j | s1 in c1.queue && 0 <= j < |c1.queue[s1]|
      ensures ItemOk(c1, s1, c1.queue[s1][j])
    {
      var j0 := if s1 == s then j + |q| - |q1| else j;
      var it := c.queue[s1][j0];
      if s1 == s && j0 == 0 {
        WrittenItemOk(c, s, chunk);
      } else if s1 == s {
        assert InOrder(q[0], it);
        WriteKeepsItem(c, s, chunk, s1, it);
      } else {
        OtherSocket(c, s, s1, j);
        WriteKeepsItem(c, s, chunk, s1, it);
      }
    }
  }

  /** A written object moves on or leaves; the others stay in their order, and in other queues. */
  lemma WriteFrontItems<K>(c: Channel<K>, s: int, chunk: int)
    requires 0 < |c.Items(s)| && Unfinished(c.Items(s)[0]) && 0 < chunk
    ensures var c1, q := WriteFront(c, s, chunk), c.Items(s);
      var q1 := c1.Items(s);
      && s in c1.queue && c1.queue == c.queue[s := q1] && |q| - 1 <= |q1| <= |q|
      && (|q1| == |q| ==> ChunkSize(q[0], chunk) == chunk < |q[0].bytes| - q[0].sentOffset)
      && forall j :: 0 <= j < |q1| && 0 < j + |q| - |q1| ==> q1[j] == q[j + |q| - |q1|]
  {
    hide HistAfter, SliceCommand;
  }

  lemma OtherSocket<K>(c: Channel<K>, s: int, s1: int, j: nat)
    requires Queues(c) && 0 < |c.Items(s)| && s1 in c.queue && s1 != s && j < |c.queue[s1]|
    ensures c.queue[s1][j].stream != c.Items(s)[0].stream
  {
    hide Encode, Framable, Ordered;
    assert ItemOk(c, s, c.Items(s)[0]);
    assert ItemOk(c, s1, c.queue[s1][j]);
  }

  lemma WriteFrontPartial<K>(c: Channel<K>, s: int, chunk: int, n: int)
    requires Queues(c) && Writable(c, s) && 0 < chunk && ItemOk(c, s, c.Items(s)[0])
    requires n in c.hist && PartialBuffered(c, n)
    ensures PartialBuffered(WriteFront(c, s, chunk), n)
  {
    hide Encode, Framable, Queues;
    var c1, q := WriteFront(c, s, chunk), c.Items(s);
    var q1 := c1.Items(s);
    assert c1.IsOpen(n) == c.IsOpen(n);
    if c1.IsOpen(n) && c1.hist[n].off > 0 {
      var t := c.hist[n].socket;
      if n == q[0].stream {
        assert PartialItem(c1, n, q1[0]);
      } else {
        var i :| 0 <= i < |c.Items(t)| && PartialItem(c, n, c.Items(t)[i]);
        assert PartialItem(c1, n, c1.Items(t)[if t == s then i - (|q| - |q1|) else i]);
      }
    }
  }

  function FrontCommand<K>(c: Channel<K>, s: int, chunk: int): Command
    requires 0 < |c.Items(s)| && Unfinished(c.Items(s)[0]) && 0 < chunk
  {
    SliceCommand(c.Items(s)[0], chunk)
  }

  lemma WriteFrontShape<K>(c: Channel<K>, s: int, chunk: int)
    requires 0 < chunk && 0 < |c.Items(s)| && Unfinished(c.Items(s)[0])
    ensures var item := c.Items(s)[0];
      var c1 := WriteFront(c, s, chunk);
      && c1.open == c.open && c1.reset == c.reset && c1.nextId == c.nextId
      && c1.wire == c.wire + [FrontCommand(c, s, chunk)]
      && c1.hist.Keys == c.hist.Keys
      && forall n :: n in c.hist ==>
           c1.hist[n] == if n != item.stream then c.hist[n]
                         else RecordWrite(c.hist[n], item, item.sentOffset + ChunkSize(item, chunk))
  {
  }

  lemma WriteFrontStream<K>(c: Channel<K>, s: int, chunk: int, n: int)
    requires 0 < chunk && 0 < |c.Items(s)| && ItemOk(c, s, c.Items(s)[0]) && n in c.hist
    requires StreamOk(c.hist[n]) && StreamBytes(c.wire, n) == Written(c.hist[n])
    requires c.IsOpen(c.Items(s)[0].stream)
    requires n == c.Items(s)[0].stream ==> c.hist[n].off == c.Items(s)[0].sentOffset
    ensures var c1 := WriteFront(c, s, chunk);
      n in c1.hist && StreamOk(c1.hist[n]) && StreamBytes(c1.wire, n) == Written(c1.hist[n])
  {
    hide Encode, Framable, Written, WriteFront, StreamOk, Continues, StreamBytes, RecordWrite, SliceCommand;
    WriteFrontShape(c, s, chunk);
    StreamBytesAppend(c.wire, FrontCommand(c, s, chunk), n);
    SliceCarries(c.Items(s)[0], chunk);
    if n == c.Items(s)[0].stream {
      ChunkContinues(c, s, chunk);
      SliceRecorded(c.hist[n], c.Items(s)[0], chunk);
    }
  }

  lemma SliceCarries<K>(item: Item<K>, chunk: int)
    requires 0 < chunk && Unfinished(item)
    ensures var cmd := SliceCommand(item, chunk);
      cmd.Send? && cmd.stream == item.stream && cmd.bytes == item.bytes[item.sentOffset..item.sentOffset + ChunkSize(item, chunk)]
  {
  }

  lemma SliceRecorded<K>(h: Stream<K>, item: Item<K>, chunk: int)
    requires 0 < chunk && Unfinished(item) && Continues(h, item, item.sentOffset + ChunkSize(item, chunk))
    ensures var h1 := RecordWrite(h, item, item.sentOffset + ChunkSize(item, chunk));
      StreamOk(h1) && Written(h1) == Written(h) + SliceCommand(item, chunk).bytes
  {
    hide Encode, Framable, Written, StreamOk, Continues, RecordWrite;
    RecordedStreamOk(h, item, item.sentOffset + ChunkSize(item, chunk));
    WrittenGrows(h, item, item.sentOffset + ChunkSize(item, chunk));
  }

  lemma ChunkContinues<K>(c: Channel<K>, s: int, chunk: int)
    requires 0 < chunk && 0 < |c.Items(s)| && ItemOk(c, s, c.Items(s)[0])
    requires var n := c.Items(s)[0].stream;
      n in c.hist && StreamOk(c.hist[n]) && c.IsOpen(n) && c.hist[n].off == c.Items(s)[0].sentOffset
    ensures var item := c.Items(s)[0];
      Continues(c.hist[item.stream], item, item.sentOffset + ChunkSize(item, chunk))
  {
    hide Encode, Framable;
  }

  lemma WriteFrontWire<K>(c: Channel<K>, s: int, chunk: int)
    requires Queues(c) && Wire(c) && Writable(c, s) && 0 < chunk && ItemOk(c, s, c.Items(s)[0])
    requires c.hist[c.Items(s)[0].stream].off == c.Items(s)[0].sentOffset
    ensures Wire(WriteFront(c, s, chunk))
  {
    hide PartialBuffered, Written, StreamOk, Queues, StreamBytes, WriteFront, SliceCommand, Encode;
    assert Unfinished(c.Items(s)[0]);
    WriteFrontShape(c, s, chunk);
    var c1 := WriteFront(c, s, chunk);
    forall n | n in c1.hist
      ensures StreamOk(c1.hist[n]) && StreamBytes(c1.wire, n) == Written(c1.hist[n]) && PartialBuffered(c1, n)
    {
      WriteFrontStream(c, s, chunk, n);
      WriteFrontPartial(c, s, chunk, n);
    }
  }

  lemma AppendDiscipline<K>(c: Channel<K>, c1: Channel<K>, cmd: Command)
    requires Discipline(c) && c1.wire == c.wire + [cmd] && c.hist.Keys == c1.hist.Keys
    requires forall n :: c1.IsOpen(n) ==> c.IsOpen(n)
    requires cmd.Send? ==> c.IsOpen(cmd.stream)
    requires cmd.Reset? ==> cmd.stream in c.hist && !c1.IsOpen(cmd.stream)
    ensures Discipline(c1)
  {
    forall n | c1.IsOpen(n)
      ensures NeverReset(c1.wire, n)
    {
      assert NeverReset(c.wire, n);
    }
    if cmd.Send? {
      assert NeverReset(c.wire, cmd.stream);
    }
  }

  lemma KeysKept<K>(c: Channel<K>, c1: Channel<K>)
    requires Streams(c) && c1.open == c.open && c1.reset == c.reset && c1.nextId == c.nextId
    requires c1.hist.Keys == c.hist.Keys && forall n :: n in c.hist ==> c1.hist[n].key == c.hist[n].key
    ensures Streams(c1) && forall n :: c1.IsOpen(n) == c.IsOpen(n)
  {
  }

  lemma WriteFrontRest<K>(c: Channel<K>, s: int, chunk: int)
    requires Streams(c) && Discipline(c) && Writable(c, s) && 0 < chunk
    requires Unfinished(c.Items(s)[0])
    ensures Streams(WriteFront(c, s, chunk)) && Discipline(WriteFront(c, s, chunk))
  {
    WriteFrontShape(c, s, chunk);
    var c1 := WriteFront(c, s, chunk);
    hide WriteFront, Streams, Discipline;
    KeysKept(c, c1);
    AppendDiscipline(c, c1, FrontCommand(c, s, chunk));
  }

  /** Writing the next slice of the first queued object keeps every invariant. */
  lemma WriteFrontValid<K>(c: Channel<K>, s: int, chunk: int)
    requires Valid(c) && Writable(c, s) && 0 < chunk
    ensures ItemOk(c, s, c.Items(s)[0]) && Valid(WriteFront(c, s, chunk))
  {
    FrontContinues(c, s);
    hide Queues, Wire, WriteFront, Streams, Discipline;
    WriteFrontWire(c, s, chunk);
    WriteFrontQueues(c, s, chunk);
    WriteFrontRest(c, s, chunk);
  }

  // ---- The receiver at the other end of a stream ----

  lemma {:induction false} WholeItemsAtCut(xs: seq<ObjectFrame>, x: ObjectFrame, n: nat)
    requires n < |EncodeAll(Encode, xs)| + |Encode(x)|
    ensures WholeItems(Encode, xs + [x], n) <= |xs|
    ensures |EncodeAll(Encode, xs)| <= n ==> WholeItems(Encode, xs + [x], n) == |xs|
  {
    hide Encode;
    if xs != [] {
      assert (xs + [x])[1..] == xs[1..] + [x];
      if |Encode(xs[0])| <= n {
        WholeItemsAtCut(xs[1..], x, n - |Encode(xs[0])|);
      }
    } else {
      assert xs + [x] == [x];
    }
  }

  /** No reachable run desynchronises a stream. Whatever part of a stream's bytes has been delivered, in
      whatever packets, the receiver's parse loop holds exactly the whole objects among those written,
      unaltered and in ascending object id; once all of it is delivered it has them all, and what is
      left in its buffer is the beginning of the one object partly written. */
  lemma NeverDesynchronised<K>(c: Channel<K>, id: int, packets: seq<Bytes>)
    requires Valid(c) && id in c.hist
    requires Concat(packets) <= StreamBytes(c.wire, id)
    ensures var (got, rest) := Feed(TryParse, [], packets);
      var h := c.hist[id];
      && got <= h.sent && AscendingIds(got) && (forall f :: f in got ==> f in h.offered)
      && EncodeAll(Encode, got) + rest == Concat(packets)
      && (Concat(packets) == StreamBytes(c.wire, id) ==> got == h.sent && rest == Encode(h.part)[..h.off])
  {
    assert StreamOk(c.hist[id]) && StreamBytes(c.wire, id) == Written(c.hist[id]);
    hide *;
    WrittenParses(c.hist[id], packets);
  }

  lemma WrittenParses<K>(h: Stream<K>, packets: seq<Bytes>)
    requires StreamOk(h) && Concat(packets) <= Written(h)
    ensures var (got, rest) := Feed(TryParse, [], packets);
      && got <= h.sent && AscendingIds(got) && (forall f :: f in got ==> f in h.offered)
      && EncodeAll(Encode, got) + rest == Concat(packets)
      && (Concat(packets) == Written(h) ==> got == h.sent && rest == Encode(h.part)[..h.off])
  {
    hide Encode, Framable;
    var frames := h.sent + [h.part];
    EncodeAllAppend(Encode, h.sent, h.part);
    assert Written(h) <= EncodeAll(Encode, frames);
    assert forall f :: f in frames ==> f == h.part || f in h.offered;
    ReceiveAnyChunking(frames, packets);
    WholeItemsAtCut(h.sent, h.part, |Concat(packets)|);
    var (got, rest) := Feed(TryParse, [], packets);
    assert got == h.sent[..|got|];
    if Concat(packets) == Written(h) {
      assert got == h.sent;
      CancelPrefix(EncodeAll(Encode, h.sent), rest, Encode(h.part)[..h.off]);
      assert |rest| == h.off;
    }
  }

  /** While a stream is open, the object cut off at its end is still queued, at exactly that offset, so
      the rest of the object's bytes will complete it. */
  lemma CutObjectStillQueued<K>(c: Channel<K>, id: int)
    requires Valid(c) && c.IsOpen(id) && c.hist[id].off > 0
    ensures var h := c.hist[id];
      exists i :: 0 <= i < |c.Items(h.socket)| && var item := c.Items(h.socket)[i];
        && item.stream == id && item.sentOffset == h.off && item.frame == h.part
        && Encode(h.part)[..h.off] + item.bytes[item.sentOffset..] == Encode(item.frame)
  {
    hide Encode, Framable, StreamOk, Written, StreamBytes, Ordered, Discipline, Streams;
    var h := c.hist[id];
    assert PartialBuffered(c, id);
    var i :| 0 <= i < |c.Items(h.socket)| && PartialItem(c, id, c.Items(h.socket)[i]);
    var item := c.Items(h.socket)[i];
    assert ItemOk(c, h.socket, item);
    assert item.bytes == item.bytes[..h.off] + item.bytes[h.off..];
  }
}
