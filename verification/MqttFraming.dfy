/** MQTT v5.0 control packets: variable-length integers, PUBLISH and SUBSCRIBE, and packets on a byte stream. */
module MqttFraming {
  import opened Wrappers
  import opened Bytes
  import opened ByteStream

  /** An integer read off the front of some bytes, and how many of them it took. */
  datatype Reading = Incomplete | Read(value: nat, used: nat)

  const TWO_28 := 0x1000_0000
  const TWO_16 := 0x1_0000
  const MQTT_PUBLISH: byte := 3
  const MQTT_SUBSCRIBE: byte := 8
  const MESSAGE_EXPIRY_INTERVAL: byte := 2

  // ---- Big-endian integers and strings ----

  function BigEndian(v: nat, n: nat): (b: Bytes)
    ensures |b| == n
  {
    if n == 0 then [] else BigEndian(v / 256, n - 1) + [v % 256]
  }

  function FromBigEndian(b: Bytes): nat {
    if b == [] then 0 else 256 * FromBigEndian(b[..|b| - 1]) + b[|b| - 1]
  }

  lemma {:induction false} BigEndianRoundTrip(v: nat, n: nat)
    requires v < Pow256(n)
    ensures FromBigEndian(BigEndian(v, n)) == v
  {
    if n > 0 {
      BigEndianRoundTrip(v / 256, n - 1);
      assert BigEndian(v, n)[..n - 1] == BigEndian(v / 256, n - 1);
    }
  }

  lemma Widths()
    ensures Pow256(2) == TWO_16 && Pow256(4) == TWO_32 && Pow256(8) == TWO_64
  {
    assert Pow256(1) == 256;
    assert Pow256(2) == 256 * Pow256(1);
    assert Pow256(3) == 256 * Pow256(2);
    assert Pow256(4) == 256 * Pow256(3);
    assert Pow256(5) == 256 * Pow256(4);
    assert Pow256(6) == 256 * Pow256(5);
    assert Pow256(7) == 256 * Pow256(6);
    assert Pow256(8) == 256 * Pow256(7);
  }

  /** An integer of `n` bytes off the front. */
  function Take(b: Bytes, n: nat): (r: Reading)
    ensures r.Read? ==> r.used == n <= |b|
  {
    if |b| < n then Incomplete else Read(FromBigEndian(b[..n]), n)
  }

  lemma TakePut(v: nat, n: nat, rest: Bytes)
    requires v < Pow256(n)
    ensures Take(BigEndian(v, n) + rest, n) == Read(v, n)
  {
    BigEndianRoundTrip(v, n);
    assert (BigEndian(v, n) + rest)[..n] == BigEndian(v, n);
  }

  function PutString(s: Bytes): Bytes {
    BigEndian(|s|, 2) + s
  }

  function TakeString(b: Bytes): (r: Option<(Bytes, Bytes)>)
    ensures r.Some? ==> |r.value.0| + 2 + |r.value.1| == |b|
  {
    if |b| < 2 then None else
      var n := FromBigEndian(b[..2]);
      if |b| < 2 + n then None else Some((b[2..2 + n], b[2 + n..]))
  }

  lemma {:induction false} FromBigEndianBound(b: Bytes)
    ensures FromBigEndian(b) < Pow256(|b|)
  {
    if b != [] {
      FromBigEndianBound(b[..|b| - 1]);
    }
  }

  lemma StringRoundTrip(s: Bytes, rest: Bytes)
    requires |s| < TWO_16
    ensures TakeString(PutString(s) + rest) == Some((s, rest))
  {
    var b := PutString(s) + rest;
    Widths();
    BigEndianRoundTrip(|s|, 2);
    assert b[..2] == BigEndian(|s|, 2);
    assert b[2..2 + |s|] == s && b[2 + |s|..] == rest;
  }

  lemma TakenStringShort(b: Bytes)
    ensures TakeString(b).Some? ==> |TakeString(b).value.0| < TWO_16
  {
    if |b| >= 2 {
      FromBigEndianBound(b[..2]);
      Widths();
    }
  }

  // ---- Variable Byte Integers (section 1.5.5) ----

  function VarInt(v: nat): (b: Bytes)
    ensures |b| > 0
  {
    if v < 128 then [v] else [v % 128 + 128] + VarInt(v / 128)
  }

  function VarIntSize(v: nat): (n: nat)
    ensures n == |VarInt(v)|
  {
    if v < 128 then 1 else 1 + VarIntSize(v / 128)
  }

  /** The value and how many bytes it takes; at most `left` bytes are looked at. */
  function VarIntFrom(b: Bytes, left: nat): (r: Reading)
    ensures r.Read? ==> 0 < r.used <= |b|
  {
    if left == 0 || b == [] then Incomplete
    else if b[0] < 128 then Read(b[0], 1)
    else
      match VarIntFrom(b[1..], left - 1)
      case Incomplete => Incomplete
      case Read(v, used) => Read(b[0] - 128 + 128 * v, used + 1)
  }

  /** `Incomplete` both while bytes are missing and for a fifth byte. */
  function GetVarInt(b: Bytes): Reading {
    VarIntFrom(b, 4)
  }

  function Pow128(n: nat): (p: nat)
    ensures p > 0
  {
    if n == 0 then 1 else 128 * Pow128(n - 1)
  }

  lemma {:induction false} VarIntFromPut(v: nat, left: nat, rest: Bytes)
    requires left > 0
    ensures VarIntFrom(VarInt(v) + rest, left) == if v < Pow128(left) then Read(v, |VarInt(v)|) else Incomplete
    decreases left
  {
    var b := VarInt(v) + rest;
    assert v >= 128 ==> b[1..] == VarInt(v / 128) + rest;
    if left == 1 {
      assert Pow128(1) == 128;
    } else if v < 128 {
      assert Pow128(left) == 128 * Pow128(left - 1);
    } else {
      VarIntFromPut(v / 128, left - 1, rest);
      assert v < 128 * Pow128(left - 1) <==> v / 128 < Pow128(left - 1);
    }
  }

  lemma {:induction false} VarIntFromCut(v: nat, left: nat, n: nat)
    requires n < |VarInt(v)|
    ensures VarIntFrom(VarInt(v)[..n], left) == Incomplete
    decreases left
  {
    if left > 0 && n > 0 {
      VarIntFromCut(v / 128, left - 1, n - 1);
      assert VarInt(v)[..n][1..] == VarInt(v / 128)[..n - 1];
    }
  }

  lemma Limit()
    ensures Pow128(4) == TWO_28
  {
    assert Pow128(1) == 128;
    assert Pow128(2) == 128 * Pow128(1);
    assert Pow128(3) == 128 * Pow128(2);
    assert Pow128(4) == 128 * Pow128(3);
  }

  /** A value comes back, with the number of bytes it took, exactly when it is below 2^28. */
  lemma VarIntRoundTripIffFits(v: nat, rest: Bytes)
    ensures GetVarInt(VarInt(v) + rest) == Read(v, VarIntSize(v)) <==> v < TWO_28
    ensures v >= TWO_28 ==> GetVarInt(VarInt(v) + rest) == Incomplete
  {
    VarIntFromPut(v, 4, rest);
    Limit();
  }

  method PutVarInt(b: Bytes, value: nat) returns (r: Bytes)
    ensures r == b + VarInt(value)
  {
    var v := value;
    r := b;
    var more := true;
    while more
      invariant if more then r + VarInt(v) == b + VarInt(value) else r == b + VarInt(value)
      decreases more, v
    {
      var low := v % 128;
      ghost var was, before := v, r;
      v := v / 128;
      if v > 0 {
        low := low + 128;
        assert before + ([low] + VarInt(v)) == before + [low] + VarInt(v);
      }
      r := r + [low];
      more := v > 0;
    }
  }

  lemma VarIntStep(p: Bytes, i: nat, left: nat)
    requires i < |p| && left > 0
    ensures VarIntFrom(p[i..], left) ==
      if p[i] < 128 then Read(p[i], 1)
      else match VarIntFrom(p[i + 1..], left - 1)
        case Incomplete => Incomplete
        case Read(v, used) => Read(p[i] - 128 + 128 * v, used + 1)
  {
    assert p[i..][0] == p[i] && p[i..][1..] == p[i + 1..];
  }

  method ReadVarInt(p: Bytes) returns (r: Reading)
    ensures r == GetVarInt(p)
  {
    hide *;
    var multiplier: nat, out: nat, used: nat := 1, 0, 0;
    VarIntWhole(p);
    for i := 0 to 4
      invariant used == i <= |p| && multiplier > 0 && out >= 0
      invariant GetVarInt(p) == Scaled(out, multiplier, i, VarIntFrom(p[i..], 4 - i))
    {
      if used >= |p| {
        NothingLeft(p[i..], 4 - i, out, multiplier, i);
        return Incomplete;
      }
      var next: nat := p[used];
      used := used + 1;
      DigitRead(p, i, 4 - i, out, multiplier);
      if next < 128 {
        return Read(out + next * multiplier, used);
      }
      out := out + (next - 128) * multiplier;
      multiplier := multiplier * 128;
    }
    NothingLeft(p[4..], 0, out, multiplier, 4);
    return Incomplete;
  }

  /** A reading of the rest, behind `used` bytes worth `out`. */
  function Scaled(out: nat, multiplier: nat, used: nat, rest: Reading): Reading {
    match rest
    case Incomplete => Incomplete
    case Read(v, n) => Read(out + multiplier * v, used + n)
  }

  lemma VarIntWhole(p: Bytes)
    ensures GetVarInt(p) == Scaled(0, 1, 0, VarIntFrom(p[0..], 4))
  {
    assert p[0..] == p;
  }

  lemma NothingLeft(b: Bytes, left: nat, out: nat, multiplier: nat, used: nat)
    requires b == [] || left == 0
    ensures Scaled(out, multiplier, used, VarIntFrom(b, left)) == Incomplete
  {
  }

  lemma DigitRead(p: Bytes, i: nat, left: nat, out: nat, multiplier: nat)
    requires i < |p| && left > 0
    ensures Scaled(out, multiplier, i, VarIntFrom(p[i..], left)) ==
      if p[i] < 128 then Read(out + p[i] * multiplier, i + 1)
      else Scaled(out + (p[i] - 128) * multiplier, multiplier * 128, i + 1, VarIntFrom(p[i + 1..], left - 1))
  {
    VarIntStep(p, i, left);
    if p[i] >= 128 {
      MulFactors(multiplier, p[i] - 128, VarIntFrom(p[i + 1..], left - 1));
    }
    hide VarIntFrom;
  }

  lemma MulFactors(m: nat, low: nat, rest: Reading)
    ensures rest.Read? ==> m * (low + 128 * rest.value) == low * m + (m * 128) * rest.value
  {
    if rest.Read? {
      var v := rest.value;
      assert m * (128 * v) == (m * 128) * v;
      assert m * (low + 128 * v) == m * low + m * (128 * v);
    }
  }

  // ---- Packets ----

  /** A control packet without its fixed header. */
  datatype Packet = Packet(packetType: nat, flags: nat, body: Bytes)

  function Frame(p: Packet): Bytes {
    [(p.packetType * 16 + p.flags % 16) % 256] + VarInt(|p.body| % TWO_32) + p.body
  }

  function TryParse(buf: Bytes): Parsed<Packet> {
    if buf == [] then NeedMore else
      match GetVarInt(buf[1..])
      case Incomplete => NeedMore
      case Read(remaining, lenBytes) =>
        var total := 1 + lenBytes + remaining;
        if |buf| < total then NeedMore
        else Got(Packet(buf[0] as nat / 16, buf[0] as nat % 16, buf[1 + lenBytes..total]), total)
  }

  predicate HeaderFits(p: Packet) {
    p.packetType < 16 && p.flags < 16
  }

  /** The Remaining Length of the packet can be written. */
  predicate Framable(p: Packet) {
    HeaderFits(p) && |p.body| < TWO_28
  }

  lemma ParseFramed(p: Packet, rest: Bytes)
    requires Framable(p)
    ensures TryParse(Frame(p) + rest) == Got(p, |Frame(p)|)
  {
    var buf := Frame(p) + rest;
    var len := VarInt(|p.body|);
    VarIntRoundTripIffFits(|p.body|, p.body + rest);
    hide VarInt, GetVarInt, VarIntSize;
    assert buf[0] == p.packetType * 16 + p.flags;
    assert buf[1..] == len + (p.body + rest);
    assert buf[1 + |len|..1 + |len| + |p.body|] == p.body;
  }

  lemma ParseCut(p: Packet, n: nat)
    requires Framable(p) && n < |Frame(p)|
    ensures TryParse(Frame(p)[..n]) == NeedMore
  {
    var buf, len := Frame(p)[..n], VarInt(|p.body|);
    if n > 0 {
      if n - 1 < |len| {
        assert buf[1..] == len[..n - 1];
        VarIntFromCut(|p.body|, 4, n - 1);
      } else {
        VarIntRoundTripIffFits(|p.body|, p.body[..n - 1 - |len|]);
        assert buf[1..] == len + p.body[..n - 1 - |len|];
      }
    }
  }

  /** A packet comes back exactly when its body is shorter than 2^28 bytes. */
  lemma PacketRoundTripIffFits(p: Packet)
    requires HeaderFits(p)
    ensures TryParse(Frame(p)) == Got(p, |Frame(p)|) <==> |p.body| < TWO_28
  {
    if |p.body| < TWO_28 {
      ParseFramed(p, []);
      assert Frame(p) + [] == Frame(p);
    } else {
      var n := |p.body| % TWO_32;
      assert Frame(p)[1..] == VarInt(n) + p.body;
      VarIntRoundTripIffFits(n, p.body);
    }
  }

  /** The parser consumes exactly the packet's own bytes, whatever follows, exactly when the body is shorter
      than 2^28 bytes; then what it gives is that packet. */
  lemma ConsumedIffFits(p: Packet, rest: Bytes)
    requires HeaderFits(p)
    ensures var r := TryParse(Frame(p) + rest);
      && (r.Got? && r.consumed == |Frame(p)| <==> |p.body| < TWO_28)
      && (|p.body| < TWO_28 ==> r == Got(p, |Frame(p)|))
  {
    if |p.body| < TWO_28 {
      ParseFramed(p, rest);
    } else {
      var n := |p.body| % TWO_32;
      VarIntRoundTripIffFits(n, p.body + rest);
      FrameTail(p, rest);
      hide VarInt, GetVarInt, VarIntSize;
    }
  }

  lemma FrameTail(p: Packet, rest: Bytes)
    ensures (Frame(p) + rest)[1..] == VarInt(|p.body| % TWO_32) + (p.body + rest)
  {
    hide VarInt;
    var len := VarInt(|p.body| % TWO_32);
    assert Frame(p) + rest == [Frame(p)[0]] + (len + (p.body + rest));
  }

  lemma PacketsDelimit()
    ensures Delimits(Framable, Frame, TryParse)
  {
    forall p, rest | Framable(p)
      ensures TryParse(Frame(p) + rest) == Got(p, |Frame(p)|)
    {
      ParseFramed(p, rest);
    }
    forall p, n | Framable(p) && 0 <= n < |Frame(p)|
      ensures TryParse(Frame(p)[..n]) == NeedMore
    {
      ParseCut(p, n);
    }
  }

  /** A stream of packets cut anywhere yields exactly the whole packets that have arrived. */
  lemma PacketsAnyChunking(packets: seq<Packet>, chunks: seq<Bytes>)
    requires forall p :: p in packets ==> Framable(p)
    requires Concat(chunks) <= EncodeAll(Frame, packets)
    ensures var (got, rest) := Feed(TryParse, [], chunks);
      && got == packets[..WholeItems(Frame, packets, |Concat(chunks)|)]
      && EncodeAll(Frame, got) + rest == Concat(chunks)
  {
    PacketsDelimit();
    assert [] + Concat(chunks) == Concat(chunks);
    FeedPrefix(Framable, Frame, TryParse, packets, [], chunks);
  }

  // ---- PUBLISH (section 3.3) ----

  datatype Message = Message(topic: Bytes, packetId: nat, qos: nat, messageExpiryInterval: nat, sequence: int, payloadLength: nat, creationTime: int)

  function Properties(m: Message): Bytes {
    if m.messageExpiryInterval > 0 then [MESSAGE_EXPIRY_INTERVAL] + BigEndian(m.messageExpiryInterval, 4) else []
  }

  /** What follows the topic and the packet id. */
  function PublishTail(m: Message): Bytes {
    VarInt(|Properties(m)|) + Properties(m) + BigEndian(ToU64(m.creationTime), 8) + BigEndian(ToU64(m.sequence), 8) + Zeros(m.payloadLength)
  }

  function PublishBody(m: Message): Bytes {
    PutString(m.topic) + (if m.qos > 0 then BigEndian(m.packetId, 2) else []) + PublishTail(m)
  }

  function EncodePublish(m: Message): Packet {
    Packet(MQTT_PUBLISH, (m.qos % 4) * 2, PublishBody(m))
  }

  /** The property list; `left` is how much of it there is still to read, negative when one ran over its end. */
  function TakeProperties(b: Bytes, left: int, expiry: nat): (r: Option<(nat, Bytes)>)
    requires left <= |b|
    decreases |b|
  {
    if left <= 0 then Some((expiry, b))
    else if b[0] != MESSAGE_EXPIRY_INTERVAL || |b| < 5 then None
    else TakeProperties(b[5..], left - 5, FromBigEndian(b[1..5]))
  }

  /** The creation time, the sequence number, and the length of the rest. */
  function ParsePayload(topic: Bytes, packetId: nat, qos: nat, expiry: nat, b: Bytes): Option<Message> {
    if |b| < 16 then None
    else Some(Message(topic, packetId, qos, expiry, FromU64(FromBigEndian(b[8..16])), |b| - 16, FromU64(FromBigEndian(b[..8]))))
  }

  function ParseTail(topic: Bytes, packetId: nat, qos: nat, b: Bytes): Option<Message> {
    match GetVarInt(b)
    case Incomplete => None
    case Read(propLen, propLenBytes) =>
      if |b| - propLenBytes < propLen then None else
        match TakeProperties(b[propLenBytes..], propLen, 0)
        case None => None
        case Some((expiry, rest)) => ParsePayload(topic, packetId, qos, expiry, rest)
  }

  /** Decodes a PUBLISH body; the QoS comes from the flags, and without QoS there is no packet id. */
  function ParsePublish(p: Packet): Option<Message> {
    match TakeString(p.body)
    case None => None
    case Some((topic, rest)) =>
      var qos := (p.flags / 2) % 4;
      if qos > 0 then
        match Take(rest, 2)
        case Incomplete => None
        case Read(packetId, used) => ParseTail(topic, packetId, qos, rest[used..])
      else ParseTail(topic, 0, qos, rest)
  }

  /** Every field is a value its C++ type can hold. */
  predicate Representable(m: Message) {
    && m.packetId < TWO_16 && m.qos < 256 && m.messageExpiryInterval < TWO_32
    && IsInt64(m.sequence) && IsInt64(m.creationTime)
  }

  lemma PayloadRoundTrip(m: Message, topic: Bytes, packetId: nat, qos: nat)
    requires Representable(m)
    ensures ParsePayload(topic, packetId, qos, m.messageExpiryInterval, BigEndian(ToU64(m.creationTime), 8) + BigEndian(ToU64(m.sequence), 8) + Zeros(m.payloadLength))
      == Some(m.(topic := topic, packetId := packetId, qos := qos))
  {
    Widths();
    BigEndianRoundTrip(ToU64(m.creationTime), 8);
    BigEndianRoundTrip(ToU64(m.sequence), 8);
    WordRoundTrip(m.creationTime);
    WordRoundTrip(m.sequence);
    hide BigEndian, FromBigEndian, Zeros, ToU64, FromU64, Pow256;
    SplitAt16(BigEndian(ToU64(m.creationTime), 8), BigEndian(ToU64(m.sequence), 8), Zeros(m.payloadLength));
  }

  lemma WordRoundTrip(v: int)
    requires IsInt64(v)
    ensures FromU64(ToU64(v)) == v
  {
  }

  lemma SplitAt16(a: Bytes, b: Bytes, c: Bytes)
    requires |a| == |b| == 8
    ensures var s := a + b + c;
      |s| == 16 + |c| && s[..8] == a && s[8..16] == b
  {
  }

  lemma PropertiesRoundTrip(m: Message, rest: Bytes)
    requires Representable(m)
    ensures |Properties(m)| < 128
    ensures TakeProperties(Properties(m) + rest, |Properties(m)|, 0) == Some((m.messageExpiryInterval, rest))
  {
    var b := Properties(m) + rest;
    if m.messageExpiryInterval > 0 {
      Widths();
      BigEndianRoundTrip(m.messageExpiryInterval, 4);
      hide BigEndian, FromBigEndian;
      assert b[1..5] == BigEndian(m.messageExpiryInterval, 4);
      assert b[5..] == rest;
    } else {
      assert b == rest;
    }
  }

  lemma TailRoundTrip(m: Message, topic: Bytes, packetId: nat, qos: nat)
    requires Representable(m)
    ensures ParseTail(topic, packetId, qos, PublishTail(m)) == Some(m.(topic := topic, packetId := packetId, qos := qos))
  {
    var payload := BigEndian(ToU64(m.creationTime), 8) + BigEndian(ToU64(m.sequence), 8) + Zeros(m.payloadLength);
    var props := Properties(m);
    PropertiesRoundTrip(m, payload);
    PayloadRoundTrip(m, topic, packetId, qos);
    VarIntRoundTripIffFits(|props|, props + payload);
    TailShape(m, payload);
    hide BigEndian, FromBigEndian, VarInt, GetVarInt, VarIntSize, Properties, TakeProperties, ParsePayload, PublishTail;
    var len := VarInt(|props|);
    assert PublishTail(m)[|len|..] == props + payload;
  }

  lemma TailShape(m: Message, payload: Bytes)
    requires payload == BigEndian(ToU64(m.creationTime), 8) + BigEndian(ToU64(m.sequence), 8) + Zeros(m.payloadLength)
    ensures PublishTail(m) == VarInt(|Properties(m)|) + (Properties(m) + payload)
  {
    hide BigEndian, VarInt, Properties, Zeros;
    var len, props := VarInt(|Properties(m)|), Properties(m);
    var time, number, zeros := BigEndian(ToU64(m.creationTime), 8), BigEndian(ToU64(m.sequence), 8), Zeros(m.payloadLength);
    assert len + props + time + number + zeros == len + props + payload == len + (props + payload);
  }

  /** What is in the message of a parsed PUBLISH. */
  lemma ParsedPublishFits(p: Packet)
    ensures var r := ParsePublish(p);
      r.Some? ==> |r.value.topic| < TWO_16 && r.value.qos < 4 && (r.value.qos == 0 ==> r.value.packetId == 0)
  {
    TakenStringShort(p.body);
  }

  /**
   * A message comes back exactly when its topic is at most 65535 bytes long, its QoS is one of the four the
   * flags can carry, and it has no packet id without QoS.
   */
  lemma PublishRoundTripIff(m: Message)
    requires Representable(m)
    ensures ParsePublish(EncodePublish(m)) == Some(m) <==> |m.topic| < TWO_16 && m.qos < 4 && (m.qos == 0 ==> m.packetId == 0)
  {
    ParsedPublishFits(EncodePublish(m));
    hide *;
    if |m.topic| < TWO_16 && m.qos < 4 && (m.qos == 0 ==> m.packetId == 0) {
      PublishRoundTrip(m);
    }
  }

  /** The bytes at the front of `b` are a PUBLISH of `m`, `n` bytes long. */
  predicate IsPublish(b: Bytes, n: nat, m: Message) {
    match TryParse(b)
    case Got(p, used) => used == n && p.packetType == MQTT_PUBLISH && ParsePublish(p) == Some(m)
    case _ => false
  }

  /** On the wire a message also needs a body shorter than 2^28 bytes to come back. */
  lemma PublishBytesRoundTripIff(m: Message, rest: Bytes)
    requires Representable(m)
    ensures var b := Frame(EncodePublish(m));
      IsPublish(b + rest, |b|, m)
      <==> |m.topic| < TWO_16 && m.qos < 4 && (m.qos == 0 ==> m.packetId == 0) && |PublishBody(m)| < TWO_28
  {
    hide Frame, TryParse, ParsePublish, PublishBody;
    ConsumedIffFits(EncodePublish(m), rest);
    PublishRoundTripIff(m);
  }

  lemma PublishRoundTrip(m: Message)
    requires Representable(m) && |m.topic| < TWO_16 && m.qos < 4 && (m.qos == 0 ==> m.packetId == 0)
    ensures ParsePublish(EncodePublish(m)) == Some(m)
  {
    hide PutString, TakeString, BigEndian, Take, PublishTail, ParseTail, PublishBody, EncodePublish;
    var tail := PublishTail(m);
    var rest := (if m.qos > 0 then BigEndian(m.packetId, 2) else []) + tail;
    PublishShape(m, rest);
    StringRoundTrip(m.topic, rest);
    TailRoundTrip(m, m.topic, m.packetId, m.qos);
    Widths();
    if m.qos > 0 {
      TakePut(m.packetId, 2, tail);
      assert rest[2..] == tail;
    } else {
      assert rest == tail;
    }
  }

  lemma PublishShape(m: Message, rest: Bytes)
    requires m.qos < 4 && rest == (if m.qos > 0 then BigEndian(m.packetId, 2) else []) + PublishTail(m)
    ensures var p := EncodePublish(m);
      p.body == PutString(m.topic) + rest && (p.flags / 2) % 4 == m.qos
  {
    hide PutString, PublishTail, BigEndian;
  }

  // ---- SUBSCRIBE (section 3.8) ----

  function TopicList(topics: seq<Bytes>, qos: nat): Bytes {
    if topics == [] then [] else PutString(topics[0]) + [qos % 4] + TopicList(topics[1..], qos)
  }

  function EncodeSubscribe(packetId: nat, topics: seq<Bytes>, qos: nat): Packet {
    Packet(MQTT_SUBSCRIBE, 2, BigEndian(packetId, 2) + VarInt(0) + TopicList(topics, qos))
  }

  datatype Subscription = Subscription(packetId: nat, topics: seq<Bytes>, qos: nat)

  /** The topics, and the QoS of the last one. */
  function ParseTopics(b: Bytes, qos: nat): (r: Option<(seq<Bytes>, nat)>)
    decreases |b|
  {
    if |b| < 2 then Some(([], qos)) else
      match TakeString(b)
      case None => None
      case Some((topic, rest)) =>
        if rest == [] then None else
          match ParseTopics(rest[1..], rest[0] as nat % 4)
          case None => None
          case Some((topics, last)) => Some(([topic] + topics, last))
  }

  function ParseSubscribe(p: Packet): Option<Subscription> {
    match Take(p.body, 2)
    case Incomplete => None
    case Read(packetId, used) =>
      match GetVarInt(p.body[used..])
      case Incomplete => None
      case Read(propLen, propLenBytes) =>
        var at := used + propLenBytes + propLen;
        match ParseTopics(if at <= |p.body| then p.body[at..] else [], 0)
        case None => None
        case Some((topics, qos)) => if topics == [] then None else Some(Subscription(packetId, topics, qos))
  }

  lemma {:induction false} TopicsRoundTrip(topics: seq<Bytes>, qos: nat, before: nat)
    requires forall t :: t in topics ==> |t| < TWO_16
    ensures ParseTopics(TopicList(topics, qos), before) == Some((topics, if topics == [] then before else qos % 4))
  {
    if topics != [] {
      var t, rest := topics[0], topics[1..];
      FirstTopic(t, TopicList(rest, qos), qos, before);
      assert PutString(t) + [qos % 4] + TopicList(rest, qos) == PutString(t) + ([qos % 4] + TopicList(rest, qos));
      TopicsRoundTrip(rest, qos, qos % 4);
      hide PutString, ParseTopics;
      assert [t] + rest == topics;
    }
  }

  lemma FirstTopic(t: Bytes, rest: Bytes, qos: nat, before: nat)
    requires |t| < TWO_16
    ensures ParseTopics(PutString(t) + ([qos % 4] + rest), before) == Prepend([t], ParseTopics(rest, qos % 4))
  {
    var after := [qos % 4] + rest;
    StringRoundTrip(t, after);
    assert |PutString(t) + after| >= 2;
    TopicStep(PutString(t) + after, before);
    hide PutString, TakeString, ParseTopics;
    assert after[0] == qos % 4 && after[1..] == rest;
  }

  lemma {:induction false} ParsedTopicsShort(b: Bytes, qos: nat)
    requires qos < 4
    ensures var r := ParseTopics(b, qos);
      r.Some? ==> r.value.1 < 4 && forall t :: t in r.value.0 ==> |t| < TWO_16
    decreases |b|
  {
    TakenStringShort(b);
    if |b| >= 2 && TakeString(b).Some? && TakeString(b).value.1 != [] {
      var rest := TakeString(b).value.1;
      ParsedTopicsShort(rest[1..], rest[0] as nat % 4);
    }
  }

  /**
   * A subscription comes back exactly when it names a topic, all topics are at most 65535 bytes long, and
   * its QoS fits two bits.
   */
  lemma SubscribeRoundTripIff(packetId: nat, topics: seq<Bytes>, qos: nat)
    requires packetId < TWO_16
    ensures ParseSubscribe(EncodeSubscribe(packetId, topics, qos)) == Some(Subscription(packetId, topics, qos))
      <==> topics != [] && qos < 4 && forall t :: t in topics ==> |t| < TWO_16
  {
    hide *;
    var list := TopicList(topics, qos);
    SubscribeIsTopics(packetId, topics, qos);
    ParsedTopicsShort(list, 0);
    if forall t :: t in topics ==> |t| < TWO_16 {
      TopicsRoundTrip(topics, qos, 0);
    }
  }

  /** The bytes at the front of `b` are a SUBSCRIBE, `n` bytes long. */
  predicate IsSubscribe(b: Bytes, n: nat, s: Subscription) {
    match TryParse(b)
    case Got(p, used) => used == n && p.packetType == MQTT_SUBSCRIBE && ParseSubscribe(p) == Some(s)
    case _ => false
  }

  /** On the wire a subscription also needs a body shorter than 2^28 bytes to come back. */
  lemma SubscribeBytesRoundTripIff(packetId: nat, topics: seq<Bytes>, qos: nat, rest: Bytes)
    requires packetId < TWO_16
    ensures var p := EncodeSubscribe(packetId, topics, qos);
      IsSubscribe(Frame(p) + rest, |Frame(p)|, Subscription(packetId, topics, qos))
      <==> topics != [] && qos < 4 && (forall t :: t in topics ==> |t| < TWO_16) && |p.body| < TWO_28
  {
    hide Frame, TryParse, ParseSubscribe, TopicList, BigEndian, VarInt;
    ConsumedIffFits(EncodeSubscribe(packetId, topics, qos), rest);
    SubscribeRoundTripIff(packetId, topics, qos);
  }

  lemma SubscribeIsTopics(packetId: nat, topics: seq<Bytes>, qos: nat)
    requires packetId < TWO_16
    ensures ParseSubscribe(EncodeSubscribe(packetId, topics, qos)) ==
      match ParseTopics(TopicList(topics, qos), 0)
      case None => None
      case Some((ts, q)) => if ts == [] then None else Some(Subscription(packetId, ts, q))
  {
    var list := TopicList(topics, qos);
    var body := EncodeSubscribe(packetId, topics, qos).body;
    hide BigEndian, Take, TopicList, ParseTopics;
    assert VarInt(0) == [0] && VarIntSize(0) == 1;
    assert body == BigEndian(packetId, 2) + (VarInt(0) + list);
    assert body[2..] == VarInt(0) + list;
    assert body[3..] == list;
    hide VarInt, GetVarInt, VarIntSize;
    Widths();
    TakePut(packetId, 2, VarInt(0) + list);
    VarIntRoundTripIffFits(0, list);
  }

  method EncodeSubscription(packetId: nat, topics: seq<Bytes>, qos: nat) returns (p: Packet)
    ensures p == EncodeSubscribe(packetId, topics, qos)
  {
    var b: Bytes := BigEndian(packetId, 2);
    b := PutVarInt(b, 0);
    ghost var start := b;
    for i := 0 to |topics|
      invariant b + TopicList(topics[i..], qos) == start + TopicList(topics, qos)
    {
      TopicListStep(topics, i, qos, b);
      b := b + PutString(topics[i]);
      b := b + [qos % 4];
    }
    assert topics[|topics|..] == [];
    p := Packet(MQTT_SUBSCRIBE, 2, b);
  }

  lemma TopicListStep(topics: seq<Bytes>, i: nat, qos: nat, b: Bytes)
    requires i < |topics|
    ensures b + TopicList(topics[i..], qos) == b + PutString(topics[i]) + [qos % 4] + TopicList(topics[i + 1..], qos)
  {
    assert topics[i..][1..] == topics[i + 1..];
  }

  function Rest(body: Bytes, i: nat): Bytes {
    if i <= |body| then body[i..] else []
  }

  /** The loop of parseSubscribe over the topics, from `start` on. */
  method ReadTopics(body: Bytes, start: nat) returns (r: Option<(seq<Bytes>, nat)>)
    ensures r == ParseTopics(Rest(body, start), 0)
  {
    hide *;
    var i, qos := start, 0;
    var topics: seq<Bytes> := [];
    PrependNone(ParseTopics(Rest(body, start), 0));
    while i + 2 <= |body|
      invariant 0 <= i && 0 <= qos
      invariant ParseTopics(Rest(body, start), 0) == Prepend(topics, ParseTopics(Rest(body, i), qos))
      decreases |body| - i
    {
      ReadTopic(body, i, qos);
      var len := FromBigEndian(body[i..i + 2]);
      i := i + 2;
      if |body| < i + len + 1 {
        PrependFails(topics);
        return None;
      }
      var topic := body[i..i + len];
      PrependOne(topics, topic, ParseTopics(Rest(body, i + len + 1), body[i + len] % 4));
      topics := topics + [topic];
      i := i + len;
      qos := body[i] % 4;
      i := i + 1;
    }
    ReadEnd(body, i, qos, topics);
    r := Some((topics, qos));
  }

  lemma ReadEnd(body: Bytes, i: nat, qos: nat, topics: seq<Bytes>)
    requires i + 2 > |body|
    ensures Prepend(topics, ParseTopics(Rest(body, i), qos)) == Some((topics, qos))
  {
    assert topics + [] == topics;
  }

  lemma PrependFails(topics: seq<Bytes>)
    ensures Prepend(topics, None) == None
  {
  }

  lemma ReadTopic(body: Bytes, i: nat, qos: nat)
    requires i + 2 <= |body|
    ensures var len := FromBigEndian(body[i..i + 2]);
      ParseTopics(Rest(body, i), qos) ==
        if |body| < i + 2 + len + 1 then None
        else Prepend([body[i + 2..i + 2 + len]], ParseTopics(Rest(body, i + 2 + len + 1), body[i + 2 + len] % 4))
  {
    hide FromBigEndian, TakeString, ParseTopics, Prepend;
    var b, len := body[i..], FromBigEndian(body[i..i + 2]);
    TakeStringAt(body, i);
    TopicStep(b, qos);
    if |body| >= i + 2 + len {
      var k := i + 2 + len;
      SuffixStep(body, k);
      assert TakeString(b).value == (body[i + 2..k], body[k..]);
    }
  }

  lemma SuffixStep(b: Bytes, k: nat)
    requires k <= |b|
    ensures b[k..] == [] <==> k == |b|
    ensures k < |b| ==> b[k..][0] == b[k] && b[k..][1..] == b[k + 1..]
  {
  }

  lemma TopicStep(b: Bytes, qos: nat)
    requires |b| >= 2
    ensures TakeString(b).None? ==> ParseTopics(b, qos) == None
    ensures TakeString(b).Some? ==>
      var (topic, rest) := TakeString(b).value;
      ParseTopics(b, qos) == if rest == [] then None else Prepend([topic], ParseTopics(rest[1..], rest[0] as nat % 4))
  {
    hide TakeString;
  }

  lemma TakeStringAt(body: Bytes, i: nat)
    requires i + 2 <= |body|
    ensures var len := FromBigEndian(body[i..i + 2]);
      TakeString(body[i..]) ==
        if |body| < i + 2 + len then None else Some((body[i + 2..i + 2 + len], body[i + 2 + len..]))
  {
    var b, len := body[i..], FromBigEndian(body[i..i + 2]);
    hide FromBigEndian;
    assert b[..2] == body[i..i + 2];
    if |body| >= i + 2 + len {
      assert b[2..2 + len] == body[i + 2..i + 2 + len] && b[2 + len..] == body[i + 2 + len..];
    }
  }

  function Prepend(before: seq<Bytes>, r: Option<(seq<Bytes>, nat)>): Option<(seq<Bytes>, nat)> {
    match r
    case None => None
    case Some((topics, qos)) => Some((before + topics, qos))
  }

  lemma PrependNone(r: Option<(seq<Bytes>, nat)>)
    ensures Prepend([], r) == r
  {
    if r.Some? {
      assert [] + r.value.0 == r.value.0;
    }
  }

  lemma PrependOne(before: seq<Bytes>, t: Bytes, r: Option<(seq<Bytes>, nat)>)
    ensures Prepend(before + [t], r) == Prepend(before, Prepend([t], r))
  {
    if r.Some? {
      assert before + [t] + r.value.0 == before + ([t] + r.value.0);
    }
  }
}
