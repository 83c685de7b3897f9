/** Length-prefixed object frames of MoqFraming.h: their encoder, their parser and the receive buffer. */
module MoqFraming {
  import opened Bytes
  import opened ByteStream

  const CONTROL_STREAM := 0
  const MOQ_ERR_DELIVERY_TIMEOUT := 0x2
  const MOQ_ERR_SEND_BUFFER_OVERFLOW := 0x100
  const PUBDONE_TRACK_ENDED := 0x2
  const PUBDONE_TOO_FAR_BEHIND := 0x6

  datatype ObjectFrame = ObjectFrame(
    trackId: int,
    groupId: int,
    subgroupId: int,
    objectId: int,
    priority: int,
    payloadLength: int,
    creationTime: int,
    trackAlias: Bytes)

  /** QUIC priority of a MoQ priority: 0 is kept for the control stream, the rest fits one byte. */
  function QuicPriorityOf(moqPriority: int): (p: int)
    ensures 1 <= p <= 255
  {
    var p := moqPriority + 1;
    if p < 1 then 1 else if p > 255 then 255 else p
  }

  /** Priorities that fit beside the control stream move up by one; and send order is kept: a lower MoQ number
      never maps to a higher QUIC number. */
  lemma QuicPriorityMonotone(a: int, b: int)
    requires a <= b
    ensures 0 <= a <= 254 ==> QuicPriorityOf(a) == a + 1
    ensures QuicPriorityOf(a) <= QuicPriorityOf(b)
    ensures 0 <= a < b <= 254 ==> QuicPriorityOf(a) < QuicPriorityOf(b)
  {
  }

  // ---- Integers ----

  function I64(v: int): (b: Bytes)
    ensures |b| == 8
  {
    LittleEndian(ToU64(v), 8)
  }

  function U32(v: nat): (b: Bytes)
    ensures |b| == 4
  {
    LittleEndian(v % TWO_32, 4)
  }

  function GetI64(b: Bytes): int {
    FromU64(FromLittleEndian(b))
  }

  lemma Pow256Values()
    ensures Pow256(4) == TWO_32 && Pow256(8) == TWO_64
  {
    assert Pow256(4) == 256 * Pow256(3);
    assert Pow256(8) == 256 * (256 * (256 * (256 * Pow256(4))));
  }

  lemma I64RoundTrip(v: int)
    ensures GetI64(I64(v)) == v <==> IsInt64(v)
  {
    Pow256Values();
    LittleEndianRoundTrip(ToU64(v), 8);
  }

  lemma U32RoundTrip(v: nat)
    ensures FromLittleEndian(U32(v)) == v % TWO_32
  {
    Pow256Values();
    LittleEndianRoundTrip(v % TWO_32, 4);
  }

  /** putI64: eight times, append the low byte and shift. */
  method PutI64(b: Bytes, v: int) returns (r: Bytes)
    ensures r == b + I64(v)
  {
    var u := ToU64(v);
    r := b;
    for i := 0 to 8
      invariant u >= 0 && r + LittleEndian(u, 8 - i) == b + I64(v)
    {
      assert LittleEndian(u, 8 - i) == [u % 256] + LittleEndian(u / 256, 8 - i - 1);
      assert r + ([u % 256] + LittleEndian(u / 256, 8 - i - 1)) == (r + [u % 256]) + LittleEndian(u / 256, 8 - i - 1);
      r := r + [u % 256];
      u := u / 256;
    }
    assert LittleEndian(u, 0) == [];
  }

  /** getI64: from the most significant byte down, shift and add. */
  method ReadI64(p: Bytes) returns (v: int)
    requires |p| >= 8
    ensures v == GetI64(p[..8])
  {
    var u: nat := 0;
    var i := 8;
    while i > 0
      invariant 0 <= i <= 8
      invariant u == FromLittleEndian(p[i..8])
    {
      i := i - 1;
      assert p[i..8][1..] == p[i + 1..8];
      u := u * 256 + p[i];
    }
    assert p[0..8] == p[..8];
    v := FromU64(u);
  }

  // ---- Frames ----

  function Ints(xs: seq<int>): (b: Bytes)
    ensures |b| == 8 * |xs|
  {
    if xs == [] then [] else I64(xs[0]) + Ints(xs[1..])
  }

  function HeaderInts(f: ObjectFrame): seq<int> {
    [f.trackId, f.groupId, f.subgroupId, f.objectId, f.priority, f.payloadLength, f.creationTime]
  }

  /** Size of the zero-filled payload. A negative length makes the C++ insert throw, so no frame exists
      for it; `Representable` leaves such frames out. */
  function PayloadSize(f: ObjectFrame): nat {
    if f.payloadLength < 0 then 0 else f.payloadLength
  }

  function Body(f: ObjectFrame): Bytes {
    Ints(HeaderInts(f)) + U32(|f.trackAlias|) + f.trackAlias + Zeros(PayloadSize(f))
  }

  function BodyLength(f: ObjectFrame): nat {
    7 * 8 + 4 + |f.trackAlias| + PayloadSize(f)
  }

  function Encode(f: ObjectFrame): (b: Bytes)
    ensures |b| == 4 + BodyLength(f)
  {
    U32(BodyLength(f)) + Body(f)
  }

  /** Every field is a value its C++ type can hold. */
  predicate Representable(f: ObjectFrame) {
    0 <= f.payloadLength && forall i :: 0 <= i < 7 ==> IsInt64(HeaderInts(f)[i])
  }

  /** Representable, and its length fits the 32-bit prefix. */
  predicate Framable(f: ObjectFrame) {
    Representable(f) && BodyLength(f) < TWO_32
  }

  function HeaderInt(data: Bytes, i: nat): int
    requires i < 7 && 60 <= |data|
  {
    GetI64(data[4 + 8 * i..12 + 8 * i])
  }

  /** tryParse. The parser checks the buffer only against the length prefix, so the header fields and the
      alias may lie past its end when a prefix is smaller than the fields it announces. */
  function TryParse(data: Bytes): Parsed<ObjectFrame> {
    if |data| < 4 then NeedMore
    else
      var bodyLen := FromLittleEndian(data[..4]);
      if |data| < 4 + bodyLen then NeedMore
      else if |data| < 64 then OutOfBounds
      else
        var aliasLen := FromLittleEndian(data[60..64]);
        if |data| < 64 + aliasLen then OutOfBounds
        else
          Got(ObjectFrame(HeaderInt(data, 0), HeaderInt(data, 1), HeaderInt(data, 2), HeaderInt(data, 3),
                          HeaderInt(data, 4), HeaderInt(data, 5), HeaderInt(data, 6), data[64..64 + aliasLen]),
              4 + bodyLen)
  }

  lemma {:induction false} IntAt(xs: seq<int>, i: nat)
    requires i < |xs|
    ensures Ints(xs)[8 * i..8 * i + 8] == I64(xs[i])
  {
    if i > 0 {
      IntAt(xs[1..], i - 1);
      assert Ints(xs)[8 * i..8 * i + 8] == Ints(xs[1..])[8 * (i - 1)..8 * (i - 1) + 8];
    }
  }

  lemma HeaderIntOfEncoding(f: ObjectFrame, rest: Bytes, i: nat)
    requires i < 7
    ensures HeaderInt(Encode(f) + rest, i) == GetI64(I64(HeaderInts(f)[i]))
  {
    var data := Encode(f) + rest;
    var ints := Ints(HeaderInts(f));
    assert data == U32(BodyLength(f)) + ints + (U32(|f.trackAlias|) + f.trackAlias + Zeros(PayloadSize(f)) + rest);
    assert data[4 + 8 * i..12 + 8 * i] == ints[8 * i..8 * i + 8];
    IntAt(HeaderInts(f), i);
  }

  lemma EncodingFields(f: ObjectFrame, rest: Bytes)
    ensures var data := Encode(f) + rest;
      && data[..4] == U32(BodyLength(f))
      && data[60..64] == U32(|f.trackAlias|)
      && data[64..64 + |f.trackAlias|] == f.trackAlias
  {
    var data := Encode(f) + rest;
    var tail := Zeros(PayloadSize(f)) + rest;
    var front := U32(BodyLength(f)) + Ints(HeaderInts(f));
    assert data == front + U32(|f.trackAlias|) + f.trackAlias + tail;
    assert |front| == 60;
  }

  /** Encoding then parsing gives the frame back and consumes exactly its bytes, whatever follows. */
  lemma ParseEncoded(f: ObjectFrame, rest: Bytes)
    requires Framable(f)
    ensures TryParse(Encode(f) + rest) == Got(f, |Encode(f)|)
  {
    hide Encode, TryParse, HeaderInt, U32, I64, GetI64, FromLittleEndian;
    EncodingFields(f, rest);
    U32RoundTrip(BodyLength(f));
    U32RoundTrip(|f.trackAlias|);
    forall i: nat | i < 7
      ensures HeaderInt(Encode(f) + rest, i) == HeaderInts(f)[i]
    {
      HeaderIntOfEncoding(f, rest, i);
      I64RoundTrip(HeaderInts(f)[i]);
    }
    ParseFields(f, Encode(f) + rest, 4 + BodyLength(f));
  }

  lemma ParseFields(f: ObjectFrame, data: Bytes, size: nat)
    requires 64 + |f.trackAlias| <= size <= |data|
    requires 4 + FromLittleEndian(data[..4]) == size
    requires FromLittleEndian(data[60..64]) == |f.trackAlias|
    requires data[64..64 + |f.trackAlias|] == f.trackAlias
    requires forall i: nat :: i < 7 ==> HeaderInt(data, i) == HeaderInts(f)[i]
    ensures TryParse(data) == Got(f, size)
  {
    assert HeaderInt(data, 0) == f.trackId && HeaderInt(data, 1) == f.groupId;
    assert HeaderInt(data, 2) == f.subgroupId && HeaderInt(data, 3) == f.objectId;
    assert HeaderInt(data, 4) == f.priority && HeaderInt(data, 5) == f.payloadLength;
    assert HeaderInt(data, 6) == f.creationTime;
  }

  /** No part of a frame parses before its last byte is there. */
  lemma ParsePartial(f: ObjectFrame, n: nat)
    requires Framable(f) && n < |Encode(f)|
    ensures TryParse(Encode(f)[..n]) == NeedMore
  {
    if n >= 4 {
      EncodingFields(f, []);
      assert Encode(f) + [] == Encode(f);
      assert Encode(f)[..n][..4] == Encode(f)[..4];
      U32RoundTrip(BodyLength(f));
    }
  }

  /** For a frame of representable fields the round trip holds exactly while the body length fits the
      32-bit prefix: from 2^32 on the prefix wraps and the parser takes a different number of bytes. */
  lemma RoundTripIffFits(f: ObjectFrame)
    requires Representable(f)
    ensures TryParse(Encode(f)) == Got(f, |Encode(f)|) <==> BodyLength(f) < TWO_32
  {
    assert Encode(f) + [] == Encode(f);
    if BodyLength(f) < TWO_32 {
      ParseEncoded(f, []);
    } else {
      EncodingFields(f, []);
      U32RoundTrip(BodyLength(f));
      var p := TryParse(Encode(f));
      assert p.Got? ==> p.consumed == 4 + BodyLength(f) % TWO_32;
    }
  }

  /** The object framing is self-delimiting. */
  lemma ObjectFramesDelimit()
    ensures Delimits(Framable, Encode, TryParse)
  {
    forall f, rest | Framable(f)
      ensures TryParse(Encode(f) + rest) == Got(f, |Encode(f)|)
    {
      ParseEncoded(f, rest);
    }
    forall f, n | Framable(f) && 0 <= n < |Encode(f)|
      ensures TryParse(Encode(f)[..n]) == NeedMore
    {
      ParsePartial(f, n);
    }
  }

  /** However the bytes of a stream of frames are cut into packets, and however many of them have
      arrived, the receive loop has yielded exactly the whole frames among them, in order. */
  lemma ReceiveAnyChunking(frames: seq<ObjectFrame>, chunks: seq<Bytes>)
    requires forall f :: f in frames ==> Framable(f)
    requires Concat(chunks) <= EncodeAll(Encode, frames)
    ensures var (got, rest) := Feed(TryParse, [], chunks);
      && got == frames[..WholeItems(Encode, frames, |Concat(chunks)|)]
      && EncodeAll(Encode, got) + rest == Concat(chunks)
  {
    ObjectFramesDelimit();
    assert [] + Concat(chunks) == Concat(chunks);
    FeedPrefix(Framable, Encode, TryParse, frames, [], chunks);
  }

  /** encode: header fields, alias and a zero-filled payload, behind the body length. */
  method EncodeFrame(f: ObjectFrame) returns (frame: Bytes)
    ensures frame == Encode(f)
  {
    var body: Bytes := [];
    ghost var h := HeaderInts(f);
    body := AppendI64(body, h, 0, f.trackId);
    body := AppendI64(body, h, 1, f.groupId);
    body := AppendI64(body, h, 2, f.subgroupId);
    body := AppendI64(body, h, 3, f.objectId);
    body := AppendI64(body, h, 4, f.priority);
    body := AppendI64(body, h, 5, f.payloadLength);
    body := AppendI64(body, h, 6, f.creationTime);
    assert h[..7] == h;
    body := body + U32(|f.trackAlias|);
    body := body + f.trackAlias;
    body := body + Zeros(PayloadSize(f));
    frame := U32(|body|) + body;
  }

  /** putI64 of the header field `i`, on a body that holds the fields before it. */
  method AppendI64(b: Bytes, ghost h: seq<int>, ghost i: nat, v: int) returns (r: Bytes)
    requires i < |h| && v == h[i]
    requires b == Ints(h[..i])
    ensures r == Ints(h[..i + 1])
  {
    r := PutI64(b, v);
    IntsAppend(h[..i], v);
    assert h[..i + 1] == h[..i] + [v];
  }

  lemma {:induction false} IntsAppend(xs: seq<int>, x: int)
    ensures Ints(xs + [x]) == Ints(xs) + I64(x)
  {
    if xs == [] {
      assert Ints([x]) == I64(x) + Ints([]);
    } else {
      IntsAppend(xs[1..], x);
      assert (xs + [x])[1..] == xs[1..] + [x];
    }
  }

  /** The per-stream buffer of a receiver: append what arrived, then take whole frames off the front. */
  class StreamReassembler {
    var data: Bytes

    constructor ()
      ensures data == []
    {
      data := [];
    }

    method OnData(packet: Bytes) returns (frames: seq<ObjectFrame>)
      modifies this
      ensures frames == Drain(TryParse, old(data) + packet).0
      ensures data == Drain(TryParse, old(data) + packet).1
    {
      data := data + packet;
      frames := [];
      ghost var all := data;
      var parsed := TryParse(data);
      hide TryParse, Drain;
      NothingDrained(data);
      while parsed.Got? && 0 < parsed.consumed <= |data|
        invariant parsed == TryParse(data)
        invariant Drain(TryParse, all).0 == frames + Drain(TryParse, data).0
        invariant Drain(TryParse, all).1 == Drain(TryParse, data).1
        decreases |data|
      {
        OneDrained(frames, data);
        frames := frames + [parsed.value];
        data := data[parsed.consumed..];
        parsed := TryParse(data);
      }
      DrainEnds(frames, data);
    }
  }

  lemma NothingDrained(data: Bytes)
    ensures Drain(TryParse, data).0 == [] + Drain(TryParse, data).0
  {
  }

  lemma OneDrained(frames: seq<ObjectFrame>, data: Bytes)
    requires var parsed := TryParse(data);
      parsed.Got? && 0 < parsed.consumed <= |data|
    ensures var parsed := TryParse(data);
      var rest := Drain(TryParse, data[parsed.consumed..]);
      frames + Drain(TryParse, data).0 == frames + [parsed.value] + rest.0 && Drain(TryParse, data).1 == rest.1
  {
    hide TryParse;
  }

  lemma DrainEnds(frames: seq<ObjectFrame>, data: Bytes)
    requires var parsed := TryParse(data);
      !(parsed.Got? && 0 < parsed.consumed <= |data|)
    ensures frames + Drain(TryParse, data).0 == frames && Drain(TryParse, data).1 == data
  {
    hide TryParse;
  }
}
