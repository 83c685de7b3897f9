/** Control frames of MoqFraming.h, and the envelope that carries them beside object frames on one TCP stream. */
module MoqControl {
  import opened Wrappers
  import opened Bytes
  import opened ByteStream
  import opened MoqFraming

  datatype ControlFrame = ControlFrame(
    messageType: byte,
    trackId: int,
    publisherId: int,
    priority: int,
    payloadSize: int,
    startObjectId: int,
    subscriberPriority: int,
    statusCode: int,
    sendInterval: int,
    deliveryTimeout: int,
    trackNamespace: Bytes,
    trackName: Bytes,
    trackAlias: Bytes,
    subscriberId: Bytes)

  function Numbers(c: ControlFrame): seq<int> {
    [c.trackId, c.publisherId, c.priority, c.payloadSize, c.startObjectId, c.subscriberPriority, c.statusCode, c.sendInterval, c.deliveryTimeout]
  }

  function Names(c: ControlFrame): seq<Bytes> {
    [c.trackNamespace, c.trackName, c.trackAlias, c.subscriberId]
  }

  /** putStr for each name. */
  function Strings(names: seq<Bytes>): Bytes {
    if names == [] then [] else U32(|names[0]|) + names[0] + Strings(names[1..])
  }

  function ControlBody(c: ControlFrame): Bytes {
    [c.messageType] + Ints(Numbers(c)) + Strings(Names(c))
  }

  function EncodeControl(c: ControlFrame): Bytes {
    U32(|ControlBody(c)|) + ControlBody(c)
  }

  /** Every number is a value its C++ type can hold and the body's length fits the prefix. */
  predicate ControlFramable(c: ControlFrame) {
    (forall i :: 0 <= i < 9 ==> IsInt64(Numbers(c)[i])) && |ControlBody(c)| < TWO_32
  }

  /** getStr, `n` times. */
  function TakeStrings(b: Bytes, n: nat): Option<seq<Bytes>> {
    if n == 0 then Some([])
    else if |b| < 4 then None
    else
      var len := FromLittleEndian(b[..4]);
      if |b| < 4 + len then None
      else
        match TakeStrings(b[4 + len..], n - 1)
        case None => None
        case Some(rest) => Some([b[4..4 + len]] + rest)
  }

  function NumberAt(data: Bytes, i: nat): int
    requires i < 9 && 77 <= |data|
  {
    GetI64(data[5 + 8 * i..13 + 8 * i])
  }

  /** tryParseControl; like the object parser it checks the buffer only against the length prefix. */
  function TryParseControl(data: Bytes): Parsed<ControlFrame> {
    if |data| < 4 then NeedMore
    else
      var bodyLen := FromLittleEndian(data[..4]);
      if |data| < 4 + bodyLen then NeedMore
      else if |data| < 77 then OutOfBounds
      else
        match TakeStrings(data[77..], 4)
        case None => OutOfBounds
        case Some(names) =>
          if |names| != 4 then OutOfBounds else
            Got(ControlFrame(data[4], NumberAt(data, 0), NumberAt(data, 1), NumberAt(data, 2), NumberAt(data, 3), NumberAt(data, 4),
                             NumberAt(data, 5), NumberAt(data, 6), NumberAt(data, 7), NumberAt(data, 8),
                             names[0], names[1], names[2], names[3]),
                4 + bodyLen)
  }

  lemma TakeFirst(b: Bytes, n: nat, s: Bytes, tail: Bytes, others: seq<Bytes>)
    requires n > 0 && |b| >= 4 + |s| && FromLittleEndian(b[..4]) == |s|
    requires b[4..4 + |s|] == s && b[4 + |s|..] == tail && TakeStrings(tail, n - 1) == Some(others)
    ensures TakeStrings(b, n) == Some([s] + others)
  {
    hide FromLittleEndian;
  }

  lemma {:induction false} StringsRoundTrip(names: seq<Bytes>, rest: Bytes)
    requires forall s :: s in names ==> |s| < TWO_32
    ensures TakeStrings(Strings(names) + rest, |names|) == Some(names)
  {
    hide U32, Strings, TakeStrings, FromLittleEndian;
    if names == [] {
      NoStrings(rest);
    }
    if names != [] {
      StringLayout(names, rest);
      U32RoundTrip(|names[0]|);
      StringsRoundTrip(names[1..], rest);
      TakeFirst(Strings(names) + rest, |names|, names[0], Strings(names[1..]) + rest, names[1..]);
      assert [names[0]] + names[1..] == names;
    }
  }

  lemma NoStrings(rest: Bytes)
    ensures TakeStrings(Strings([]) + rest, 0) == Some([])
  {
  }

  lemma StringLayout(names: seq<Bytes>, rest: Bytes)
    requires names != []
    ensures var b, n := Strings(names) + rest, |names[0]|;
      |b| >= 4 + n && b[..4] == U32(n) && b[4..4 + n] == names[0] && b[4 + n..] == Strings(names[1..]) + rest
  {
    Parts(U32(|names[0]|), names[0], Strings(names[1..]), rest);
  }

  lemma Parts(a: Bytes, b: Bytes, c: Bytes, rest: Bytes)
    ensures var x := a + b + c + rest;
      x[..|a|] == a && x[|a|..|a| + |b|] == b && x[|a| + |b|..] == c + rest
  {
  }

  lemma SliceOfSlice(b: Bytes, from: nat, to: nat, lo: nat, hi: nat)
    requires from <= to <= |b| && lo <= hi <= to - from
    ensures b[from..to][lo..hi] == b[from + lo..from + hi]
  {
    var part := b[from..to];
    assert forall k :: 0 <= k < to - from ==> part[k] == b[from + k];
    assert forall k :: 0 <= k < hi - lo ==> part[lo..hi][k] == part[lo + k];
  }

  lemma {:induction false} NamesFit(names: seq<Bytes>)
    ensures forall s :: s in names ==> |s| <= |Strings(names)|
  {
    if names != [] {
      NamesFit(names[1..]);
      assert forall s :: s in names ==> s == names[0] || s in names[1..];
    }
  }

  lemma ControlLayout(c: ControlFrame, rest: Bytes)
    ensures var data := EncodeControl(c) + rest;
      && |data| >= 77 && |EncodeControl(c)| == 4 + |ControlBody(c)| >= 77
      && data[..4] == U32(|ControlBody(c)|) && data[4] == c.messageType
      && data[5..77] == Ints(Numbers(c)) && data[77..] == Strings(Names(c)) + rest
  {
    hide U32, Ints, Strings;
    var data := EncodeControl(c) + rest;
    assert data == U32(|ControlBody(c)|) + [c.messageType] + Ints(Numbers(c)) + (Strings(Names(c)) + rest);
  }

  lemma NumbersRoundTrip(c: ControlFrame, rest: Bytes, i: nat)
    requires ControlFramable(c) && i < 9
    ensures NumberAt(EncodeControl(c) + rest, i) == Numbers(c)[i]
  {
    hide EncodeControl, U32, Strings, ControlBody;
    ControlLayout(c, rest);
    var data := EncodeControl(c) + rest;
    IntAt(Numbers(c), i);
    SliceOfSlice(data, 5, 77, 8 * i, 8 * i + 8);
    I64RoundTrip(Numbers(c)[i]);
  }

  /** A control frame comes back whole, whatever follows it. */
  lemma ParseEncodedControl(c: ControlFrame, rest: Bytes)
    requires ControlFramable(c)
    ensures TryParseControl(EncodeControl(c) + rest) == Got(c, |EncodeControl(c)|)
  {
    hide EncodeControl, U32, Strings, Ints, TakeStrings, NumberAt, ControlBody, GetI64, TryParseControl;
    var data := EncodeControl(c) + rest;
    ControlLayout(c, rest);
    U32RoundTrip(|ControlBody(c)|);
    NamesShort(c);
    StringsRoundTrip(Names(c), rest);
    forall i: nat | i < 9
      ensures NumberAt(data, i) == Numbers(c)[i]
    {
      NumbersRoundTrip(c, rest, i);
    }
    ControlFromParts(c, data);
  }

  lemma NamesShort(c: ControlFrame)
    requires ControlFramable(c)
    ensures forall s :: s in Names(c) ==> |s| < TWO_32
  {
    NamesFit(Names(c));
  }

  lemma ControlFromParts(c: ControlFrame, data: Bytes)
    requires 77 <= 4 + |ControlBody(c)| <= |data| && FromLittleEndian(data[..4]) == |ControlBody(c)| && data[4] == c.messageType
    requires forall i: nat :: i < 9 ==> NumberAt(data, i) == Numbers(c)[i]
    requires TakeStrings(data[77..], 4) == Some(Names(c))
    ensures TryParseControl(data) == Got(c, 4 + |ControlBody(c)|)
  {
    assert NumberAt(data, 0) == c.trackId && NumberAt(data, 1) == c.publisherId && NumberAt(data, 2) == c.priority;
    assert NumberAt(data, 3) == c.payloadSize && NumberAt(data, 4) == c.startObjectId && NumberAt(data, 5) == c.subscriberPriority;
    assert NumberAt(data, 6) == c.statusCode && NumberAt(data, 7) == c.sendInterval && NumberAt(data, 8) == c.deliveryTimeout;
  }

  lemma ParsePartialControl(c: ControlFrame, n: nat)
    requires ControlFramable(c) && n < |EncodeControl(c)|
    ensures TryParseControl(EncodeControl(c)[..n]) == NeedMore
  {
    if n >= 4 {
      LengthFirst(c, n);
      U32RoundTrip(|ControlBody(c)|);
      hide EncodeControl, ControlBody, U32, FromLittleEndian, TakeStrings;
    }
  }

  lemma LengthFirst(c: ControlFrame, n: nat)
    requires 4 <= n <= |EncodeControl(c)|
    ensures EncodeControl(c)[..n][..4] == U32(|ControlBody(c)|) && |EncodeControl(c)| == 4 + |ControlBody(c)|
  {
    hide EncodeControl, ControlBody, U32;
    ControlLayout(c, []);
    assert EncodeControl(c) + [] == EncodeControl(c);
  }

  // ---- The envelope ----

  const MSG_CONTROL: byte := 1
  const MSG_OBJECT: byte := 2

  /** What tryParseEnvelope finds: a frame, or a byte of no known class, which is skipped. */
  datatype Message = Control(control: ControlFrame) | Object(frame: ObjectFrame) | Unknown

  function EncodeEnvelope(m: Message): Bytes {
    match m
    case Control(c) => [MSG_CONTROL] + EncodeControl(c)
    case Object(f) => [MSG_OBJECT] + Encode(f)
    case Unknown => []
  }

  function TryParseEnvelope(buf: Bytes): Parsed<Message> {
    if buf == [] then NeedMore
    else if buf[0] == MSG_CONTROL then
      match TryParseControl(buf[1..])
      case NeedMore => NeedMore
      case Got(c, n) => Got(Control(c), 1 + n)
      case OutOfBounds => OutOfBounds
    else if buf[0] == MSG_OBJECT then
      match TryParse(buf[1..])
      case NeedMore => NeedMore
      case Got(f, n) => Got(Object(f), 1 + n)
      case OutOfBounds => OutOfBounds
    else Got(Unknown, 1)
  }

  predicate EnvelopeFits(m: Message) {
    match m
    case Control(c) => ControlFramable(c)
    case Object(f) => Framable(f)
    case Unknown => false
  }

  lemma EnvelopeWhole(m: Message, rest: Bytes)
    requires EnvelopeFits(m)
    ensures TryParseEnvelope(EncodeEnvelope(m) + rest) == Got(m, |EncodeEnvelope(m)|)
  {
    hide Encode, EncodeControl, TryParse, TryParseControl;
    var buf := EncodeEnvelope(m) + rest;
    match m
    case Control(c) =>
      ParseEncodedControl(c, rest);
      assert buf[1..] == EncodeControl(c) + rest;
    case Object(f) =>
      ParseEncoded(f, rest);
      assert buf[1..] == Encode(f) + rest;
  }

  lemma EnvelopeCut(m: Message, n: nat)
    requires EnvelopeFits(m) && n < |EncodeEnvelope(m)|
    ensures TryParseEnvelope(EncodeEnvelope(m)[..n]) == NeedMore
  {
    hide Encode, EncodeControl, TryParse, TryParseControl;
    var buf := EncodeEnvelope(m)[..n];
    if n > 0 {
      match m
      case Control(c) =>
        ParsePartialControl(c, n - 1);
        assert buf[1..] == EncodeControl(c)[..n - 1];
      case Object(f) =>
        ParsePartial(f, n - 1);
        assert buf[1..] == Encode(f)[..n - 1];
    }
  }

  lemma EnvelopesDelimit()
    ensures Delimits(EnvelopeFits, EncodeEnvelope, TryParseEnvelope)
  {
    forall m, rest | EnvelopeFits(m)
      ensures TryParseEnvelope(EncodeEnvelope(m) + rest) == Got(m, |EncodeEnvelope(m)|)
    {
      EnvelopeWhole(m, rest);
    }
    forall m, n | EnvelopeFits(m) && 0 <= n < |EncodeEnvelope(m)|
      ensures TryParseEnvelope(EncodeEnvelope(m)[..n]) == NeedMore
    {
      EnvelopeCut(m, n);
    }
  }

  /** Control and object frames mixed on one TCP stream, cut anywhere: exactly the whole messages come out, in order. */
  lemma MixedStreamAnyChunking(messages: seq<Message>, chunks: seq<Bytes>)
    requires forall m :: m in messages ==> EnvelopeFits(m)
    requires Concat(chunks) <= EncodeAll(EncodeEnvelope, messages)
    ensures var (got, rest) := Feed(TryParseEnvelope, [], chunks);
      && got == messages[..WholeItems(EncodeEnvelope, messages, |Concat(chunks)|)]
      && EncodeAll(EncodeEnvelope, got) + rest == Concat(chunks)
  {
    EnvelopesDelimit();
    assert [] + Concat(chunks) == Concat(chunks);
    FeedPrefix(EnvelopeFits, EncodeEnvelope, TryParseEnvelope, messages, [], chunks);
  }
}
