/**
 The bytes on the wire, written out: what a receiver that knows only the formats finds in a frame, a
 datagram or a packet. Integers of MoQ frames and datagrams are little-endian, those of MQTT big-endian.
 */
module WireFormats {
  import opened Bytes
  import MoqControl
  import MoqFraming
  import MqttFraming
  import UdpFragments

  // ---- Integers ----

  function Big2(v: nat): Bytes {
    [v / 0x100 % 0x100, v % 0x100]
  }

  function Big4(v: nat): Bytes {
    [v / 0x100_0000 % 0x100, v / 0x1_0000 % 0x100, v / 0x100 % 0x100, v % 0x100]
  }

  function Little4(v: nat): Bytes {
    [v % 0x100, v / 0x100 % 0x100, v / 0x1_0000 % 0x100, v / 0x100_0000 % 0x100]
  }

  /** The 64 bits of a value; those of a negative one are its two's complement. */
  function Word(v: int): nat
    requires IsInt64(v)
  {
    if v < 0 then v + 0x1_0000_0000_0000_0000 else v
  }

  function Big8(v: int): Bytes
    requires IsInt64(v)
  {
    Big4(Word(v) / 0x1_0000_0000) + Big4(Word(v) % 0x1_0000_0000)
  }

  function Little8(v: int): Bytes
    requires IsInt64(v)
  {
    Little4(Word(v) % 0x1_0000_0000) + Little4(Word(v) / 0x1_0000_0000)
  }

  lemma BigEndianIsBig2(v: nat)
    ensures MqttFraming.BigEndian(v, 2) == Big2(v)
  {
    assert MqttFraming.BigEndian(v / 0x100, 1) == MqttFraming.BigEndian(v / 0x100 / 0x100, 0) + [v / 0x100 % 0x100];
  }

  lemma BigEndianIsBig4(v: nat)
    ensures MqttFraming.BigEndian(v, 4) == Big4(v)
  {
    BigEndianTail(v, 4);
    hide Big4;
    assert [] + Big4(v) == Big4(v);
  }

  lemma {:induction false} BigEndianTail(v: nat, n: nat)
    requires n >= 4
    ensures MqttFraming.BigEndian(v, n) == MqttFraming.BigEndian(v / 0x1_0000_0000, n - 4) + Big4(v)
  {
    var a, b, c := v / 0x100, v / 0x1_0000, v / 0x100_0000;
    assert a / 0x100 == b && b / 0x100 == c && c / 0x100 == v / 0x1_0000_0000;
    assert MqttFraming.BigEndian(v, n) == MqttFraming.BigEndian(a, n - 1) + [v % 0x100];
    assert MqttFraming.BigEndian(a, n - 1) == MqttFraming.BigEndian(b, n - 2) + [a % 0x100];
    assert MqttFraming.BigEndian(b, n - 2) == MqttFraming.BigEndian(c, n - 3) + [b % 0x100];
    assert MqttFraming.BigEndian(c, n - 3) == MqttFraming.BigEndian(c / 0x100, n - 4) + [c % 0x100];
  }

  lemma LowHalf(v: nat)
    ensures Big4(v % 0x1_0000_0000) == Big4(v) && Little4(v % 0x1_0000_0000) == Little4(v)
  {
    var q, w := v / 0x1_0000_0000, v % 0x1_0000_0000;
    assert v == q * 0x1_0000_0000 + w;
    LowByte(w, q * 0x100_0000);
    Divided1(q, w);
    LowByte(w / 0x100, q * 0x1_0000);
    Divided2(q, w);
    LowByte(w / 0x1_0000, q * 0x100);
    Divided3(q, w);
    LowByte(w / 0x100_0000, q);
  }

  lemma LowByte(x: nat, high: nat)
    ensures (high * 0x100 + x) % 0x100 == x % 0x100
  {
  }

  lemma Divided1(q: nat, w: nat)
    ensures (q * 0x1_0000_0000 + w) / 0x100 == q * 0x1_0000 * 0x100 + w / 0x100
  {
  }

  lemma Divided2(q: nat, w: nat)
    ensures (q * 0x1_0000_0000 + w) / 0x1_0000 == q * 0x100 * 0x100 + w / 0x1_0000
  {
  }

  lemma Divided3(q: nat, w: nat)
    ensures (q * 0x1_0000_0000 + w) / 0x100_0000 == q * 0x100 + w / 0x100_0000
  {
  }

  lemma BigEndianIsBig8(v: int)
    requires IsInt64(v)
    ensures MqttFraming.BigEndian(ToU64(v), 8) == Big8(v)
  {
    var u := Word(v);
    assert ToU64(v) == u;
    BigEndianTail(u, 8);
    BigEndianTail(u / 0x1_0000_0000, 4);
    LowHalf(u);
    hide Big4;
    assert [] + Big4(u / 0x1_0000_0000) == Big4(u / 0x1_0000_0000);
  }

  lemma {:induction false} LittleEndianHead(v: nat, n: nat)
    requires n >= 4
    ensures LittleEndian(v, n) == Little4(v) + LittleEndian(v / 0x1_0000_0000, n - 4)
  {
    var a, b, c := v / 0x100, v / 0x1_0000, v / 0x100_0000;
    assert a / 0x100 == b && b / 0x100 == c && c / 0x100 == v / 0x1_0000_0000;
    assert LittleEndian(v, n) == [v % 0x100] + LittleEndian(a, n - 1);
    assert LittleEndian(a, n - 1) == [a % 0x100] + LittleEndian(b, n - 2);
    assert LittleEndian(b, n - 2) == [b % 0x100] + LittleEndian(c, n - 3);
    assert LittleEndian(c, n - 3) == [c % 0x100] + LittleEndian(c / 0x100, n - 4);
  }

  lemma LittleEndianIsLittle4(v: nat)
    requires v < 0x1_0000_0000
    ensures MoqFraming.U32(v) == Little4(v)
  {
    hide *;
    SmallIsLittle(v);
    LittleEndianHead(v, 4);
    NothingAfter(v);
  }

  lemma SmallIsLittle(v: nat)
    requires v < 0x1_0000_0000
    ensures MoqFraming.U32(v) == LittleEndian(v, 4)
  {
    hide LittleEndian;
  }

  lemma NothingAfter(v: nat)
    requires v < 0x1_0000_0000
    ensures Little4(v) + LittleEndian(v / 0x1_0000_0000, 0) == Little4(v)
  {
    hide Little4;
  }

  lemma LittleEndianIsLittle8(v: int)
    requires IsInt64(v)
    ensures MoqFraming.I64(v) == Little8(v)
  {
    var u := Word(v);
    assert ToU64(v) == u;
    LittleEndianHead(u, 8);
    LittleEndianHead(u / 0x1_0000_0000, 4);
    LowHalf(u);
    hide Little4;
    assert Little4(u / 0x1_0000_0000) + [] == Little4(u / 0x1_0000_0000);
  }

  function Filled(n: nat): Bytes {
    seq(n, _ => 0)
  }

  lemma ZerosAreFilled(n: nat)
    ensures Zeros(n) == Filled(n)
  {
  }

  // ---- MoQ frames ----

  predicate AllInt64(vs: seq<int>) {
    forall i :: 0 <= i < |vs| ==> IsInt64(vs[i])
  }

  function Numbers(vs: seq<int>): Bytes
    requires AllInt64(vs)
  {
    if vs == [] then [] else Little8(vs[0]) + Numbers(vs[1..])
  }

  lemma {:induction false} IntsAreNumbers(vs: seq<int>)
    requires AllInt64(vs)
    ensures MoqFraming.Ints(vs) == Numbers(vs)
  {
    if vs != [] {
      LittleEndianIsLittle8(vs[0]);
      IntsAreNumbers(vs[1..]);
      hide MoqFraming.I64, Little8;
    }
  }

  /** An object: its length, seven numbers, its alias with its length, and a payload of zeros. */
  lemma ObjectOnTheWire(f: MoqFraming.ObjectFrame)
    requires MoqFraming.Framable(f)
    ensures 0 <= f.payloadLength && 60 + |f.trackAlias| + f.payloadLength < 0x1_0000_0000
    ensures var numbers := [f.trackId, f.groupId, f.subgroupId, f.objectId, f.priority, f.payloadLength, f.creationTime];
      && AllInt64(numbers)
      && MoqFraming.Encode(f) ==
        Little4(60 + |f.trackAlias| + f.payloadLength)
        + (Numbers(numbers) + Little4(|f.trackAlias|) + f.trackAlias + Filled(f.payloadLength))
  {
    assert AllInt64(MoqFraming.HeaderInts(f));
    IntsAreNumbers(MoqFraming.HeaderInts(f));
    LittleEndianIsLittle4(60 + |f.trackAlias| + f.payloadLength);
    LittleEndianIsLittle4(|f.trackAlias|);
    ZerosAreFilled(f.payloadLength);
    hide MoqFraming.U32, MoqFraming.Ints, Little4, Numbers, Zeros, Filled;
  }

  function Texts(ts: seq<Bytes>): Bytes
    requires forall t :: t in ts ==> |t| < 0x1_0000_0000
  {
    if ts == [] then [] else Little4(|ts[0]|) + ts[0] + Texts(ts[1..])
  }

  lemma {:induction false} StringsAreTexts(ts: seq<Bytes>)
    requires forall t :: t in ts ==> |t| < 0x1_0000_0000
    ensures MoqControl.Strings(ts) == Texts(ts)
  {
    if ts != [] {
      LittleEndianIsLittle4(|ts[0]|);
      StringsAreTexts(ts[1..]);
      hide MoqFraming.U32, Little4;
    }
  }

  /** A control message: its length, its type, nine numbers, and four texts with their lengths. */
  lemma ControlOnTheWire(c: MoqControl.ControlFrame)
    requires MoqControl.ControlFramable(c)
    ensures var numbers := [c.trackId, c.publisherId, c.priority, c.payloadSize, c.startObjectId, c.subscriberPriority,
                            c.statusCode, c.sendInterval, c.deliveryTimeout];
      var texts := [c.trackNamespace, c.trackName, c.trackAlias, c.subscriberId];
      && AllInt64(numbers) && (forall t :: t in texts ==> |t| < 0x1_0000_0000)
      && var body := [c.messageType] + Numbers(numbers) + Texts(texts);
        |body| < 0x1_0000_0000 && MoqControl.EncodeControl(c) == Little4(|body|) + body
  {
    assert AllInt64(MoqControl.Numbers(c));
    MoqControl.NamesFit(MoqControl.Names(c));
    IntsAreNumbers(MoqControl.Numbers(c));
    StringsAreTexts(MoqControl.Names(c));
    LittleEndianIsLittle4(|MoqControl.ControlBody(c)|);
    hide MoqFraming.U32, MoqFraming.Ints, MoqControl.Strings, Little4, Numbers, Texts;
  }

  /** On a TCP stream a control message comes behind a byte 1, an object behind a byte 2. */
  lemma EnvelopeOnTheWire(c: MoqControl.ControlFrame, f: MoqFraming.ObjectFrame)
    ensures MoqControl.EncodeEnvelope(MoqControl.Control(c)) == [1] + MoqControl.EncodeControl(c)
    ensures MoqControl.EncodeEnvelope(MoqControl.Object(f)) == [2] + MoqFraming.Encode(f)
  {
    hide MoqControl.EncodeControl, MoqFraming.Encode;
  }

  /** A UDP fragment: its class, the object id, four numbers, the alias with its length, and the chunk. */
  lemma FragmentOnTheWire(f: UdpFragments.Fragment)
    requires UdpFragments.Fits(f)
    ensures UdpFragments.EncodeFragment(f) ==
      [f.msgClass] + Little8(f.objectId) + Little4(f.fragIndex) + Little4(f.fragCount) + Little4(f.fragOffset)
      + Little4(f.totalLen) + Little4(|f.trackAlias|) + f.trackAlias + f.chunk
  {
    LittleEndianIsLittle8(f.objectId);
    LittleEndianIsLittle4(f.fragIndex);
    LittleEndianIsLittle4(f.fragCount);
    LittleEndianIsLittle4(f.fragOffset);
    LittleEndianIsLittle4(f.totalLen);
    LittleEndianIsLittle4(|f.trackAlias|);
    hide MoqFraming.U32, MoqFraming.I64, Little4, Little8;
  }

  // ---- MQTT packets ----

  /** A Variable Byte Integer: seven bits a byte, the lowest first, and a mark on all but the last. */
  function Remaining(n: nat): Bytes
    requires n < 0x1000_0000
  {
    if n < 0x80 then [n]
    else if n < 0x4000 then [n % 0x80 + 0x80, n / 0x80]
    else if n < 0x20_0000 then [n % 0x80 + 0x80, n / 0x80 % 0x80 + 0x80, n / 0x4000]
    else [n % 0x80 + 0x80, n / 0x80 % 0x80 + 0x80, n / 0x4000 % 0x80 + 0x80, n / 0x20_0000]
  }

  lemma VarIntOnTheWire(n: nat)
    requires n < 0x1000_0000
    ensures MqttFraming.VarInt(n) == Remaining(n)
  {
    var a, b, c := n / 0x80, n / 0x4000, n / 0x20_0000;
    assert a / 0x80 == b && b / 0x80 == c;
    if n >= 0x80 {
      assert MqttFraming.VarInt(n) == [n % 0x80 + 0x80] + MqttFraming.VarInt(a);
      if n >= 0x4000 {
        assert MqttFraming.VarInt(a) == [a % 0x80 + 0x80] + MqttFraming.VarInt(b);
        if n >= 0x20_0000 {
          assert MqttFraming.VarInt(b) == [b % 0x80 + 0x80] + MqttFraming.VarInt(c);
        }
      }
    }
  }

  /** A text of MQTT: its length in two bytes, then its bytes. */
  function Text(t: Bytes): Bytes {
    Big2(|t|) + t
  }

  /** No property, or the message expiry interval: the length of the list first. */
  function ExpiryProperty(interval: nat): Bytes {
    if interval == 0 then [0] else [5, 2] + Big4(interval)
  }

  /**
   * A PUBLISH: type and QoS, the remaining length, the topic, the packet id if there is a QoS, the
   * properties, two numbers and a payload of zeros.
   */
  lemma PublishOnTheWire(m: MqttFraming.Message)
    requires MqttFraming.Representable(m)
    ensures IsInt64(m.creationTime) && IsInt64(m.sequence)
    ensures var body := Text(m.topic) + (if m.qos == 0 then [] else Big2(m.packetId))
        + (ExpiryProperty(m.messageExpiryInterval) + Big8(m.creationTime) + Big8(m.sequence) + Filled(m.payloadLength));
      && MqttFraming.PublishBody(m) == body
      && (|body| < 0x1000_0000 ==>
            MqttFraming.Frame(MqttFraming.EncodePublish(m)) == [0x30 + 2 * (m.qos % 4)] + Remaining(|body|) + body)
  {
    PublishBodyOnTheWire(m);
    FirstBytes(m.qos);
    hide MqttFraming.PublishBody, MqttFraming.Frame, Big2, Big8, Text, Filled, ExpiryProperty, Remaining;
    if |MqttFraming.PublishBody(m)| < 0x1000_0000 {
      FrameOnTheWire(MqttFraming.EncodePublish(m));
    }
  }

  lemma FirstBytes(qos: nat)
    ensures (3 * 16 + (qos % 4 * 2) % 16) % 256 == 0x30 + 2 * (qos % 4)
  {
  }

  lemma FrameOnTheWire(p: MqttFraming.Packet)
    requires |p.body| < 0x1000_0000
    ensures MqttFraming.Frame(p) == [(p.packetType * 16 + p.flags % 16) % 256] + Remaining(|p.body|) + p.body
  {
    VarIntOnTheWire(|p.body|);
    hide MqttFraming.VarInt, Remaining;
  }

  lemma PublishBodyOnTheWire(m: MqttFraming.Message)
    requires MqttFraming.Representable(m)
    ensures MqttFraming.PublishBody(m) == Text(m.topic) + (if m.qos == 0 then [] else Big2(m.packetId))
        + (ExpiryProperty(m.messageExpiryInterval) + Big8(m.creationTime) + Big8(m.sequence) + Filled(m.payloadLength))
  {
    BigEndianIsBig2(|m.topic|);
    BigEndianIsBig2(m.packetId);
    PublishTailOnTheWire(m);
    hide MqttFraming.BigEndian, MqttFraming.PublishTail, Big2, Big8, Filled, ExpiryProperty;
  }

  lemma PublishTailOnTheWire(m: MqttFraming.Message)
    requires MqttFraming.Representable(m)
    ensures MqttFraming.PublishTail(m) ==
      ExpiryProperty(m.messageExpiryInterval) + Big8(m.creationTime) + Big8(m.sequence) + Filled(m.payloadLength)
  {
    BigEndianIsBig8(m.creationTime);
    BigEndianIsBig8(m.sequence);
    ZerosAreFilled(m.payloadLength);
    PropertiesOnTheWire(m);
    hide MqttFraming.VarInt, MqttFraming.BigEndian, MqttFraming.Properties, Big8, Zeros, Filled, ExpiryProperty, ToU64;
  }

  lemma PropertiesOnTheWire(m: MqttFraming.Message)
    ensures MqttFraming.VarInt(|MqttFraming.Properties(m)|) + MqttFraming.Properties(m) == ExpiryProperty(m.messageExpiryInterval)
  {
    BigEndianIsBig4(m.messageExpiryInterval);
    hide MqttFraming.BigEndian, Big4;
  }

  function Filters(topics: seq<Bytes>, qos: nat): Bytes {
    if topics == [] then [] else Text(topics[0]) + [qos % 4] + Filters(topics[1..], qos)
  }

  lemma {:induction false} TopicListIsFilters(topics: seq<Bytes>, qos: nat)
    ensures MqttFraming.TopicList(topics, qos) == Filters(topics, qos)
  {
    if topics != [] {
      BigEndianIsBig2(|topics[0]|);
      TopicListIsFilters(topics[1..], qos);
      hide MqttFraming.BigEndian, Big2;
    }
  }

  /** A SUBSCRIBE: its first byte, the remaining length, the packet id, no properties, and the filters with their QoS. */
  lemma SubscribeOnTheWire(packetId: nat, topics: seq<Bytes>, qos: nat)
    ensures var body := Big2(packetId) + [0] + Filters(topics, qos);
      |body| < 0x1000_0000 ==>
        MqttFraming.Frame(MqttFraming.EncodeSubscribe(packetId, topics, qos)) == [0x82] + Remaining(|body|) + body
  {
    SubscribeBodyOnTheWire(packetId, topics, qos);
    hide MqttFraming.VarInt, MqttFraming.BigEndian, MqttFraming.TopicList, MqttFraming.Frame, Big2, Filters, Remaining;
    var p := MqttFraming.EncodeSubscribe(packetId, topics, qos);
    assert (p.packetType * 16 + p.flags % 16) % 256 == 0x82;
    if |p.body| < 0x1000_0000 {
      FrameOnTheWire(p);
    }
  }

  lemma SubscribeBodyOnTheWire(packetId: nat, topics: seq<Bytes>, qos: nat)
    ensures MqttFraming.EncodeSubscribe(packetId, topics, qos).body == Big2(packetId) + [0] + Filters(topics, qos)
  {
    BigEndianIsBig2(packetId);
    TopicListIsFilters(topics, qos);
    assert MqttFraming.VarInt(0) == [0];
    hide MqttFraming.VarInt, MqttFraming.BigEndian, MqttFraming.TopicList, Big2, Filters;
  }
}
