/** MoqSubscriberApp over QUIC: the receive side that keeps one recv outstanding and parses each data stream. */
module SubscriberApp {
  import opened Bytes
  import opened ByteStream
  import opened MoqFraming
  import opened ReceivePump

  /** Feeding one more packet continues where the packets before left off. */
  lemma {:induction false} FeedOneMore(buf: Bytes, chunks: seq<Bytes>, c: Bytes)
    ensures var (xs, rest) := Feed(TryParse, buf, chunks);
      var (ys, last) := Drain(TryParse, rest + c);
      Feed(TryParse, buf, chunks + [c]) == (xs + ys, last)
    decreases |chunks|
  {
    hide TryParse;
    if chunks == [] {
      var (ys, last) := Drain(TryParse, buf + c);
      assert [c][1..] == [];
      assert Feed(TryParse, last, []) == ([], last);
      assert ys + [] == ys && [] + ys == ys;
    } else {
      var (first, rest) := Drain(TryParse, buf + chunks[0]);
      FeedOneMore(rest, chunks[1..], c);
      assert (chunks + [c])[1..] == chunks[1..] + [c];
      var (xs, r) := Feed(TryParse, rest, chunks[1..]);
      var (ys, last) := Drain(TryParse, r + c);
      assert first + (xs + ys) == (first + xs) + ys;
    }
  }

  function ObjectsOn(recorded: map<int, seq<ObjectFrame>>, s: int): seq<ObjectFrame> {
    if s in recorded then recorded[s] else []
  }

  /** On every data stream the objects recorded and the bytes left over are what the parser makes of its packets. */
  ghost predicate UpToDate(buffers: map<int, Bytes>, recorded: map<int, seq<ObjectFrame>>, filed: map<int, seq<Bytes>>) {
    forall s :: s != CONTROL_STREAM ==> (ObjectsOn(recorded, s), At(buffers, s)) == Feed(TryParse, [], PacketsOn(filed, s))
  }

  lemma OneMorePacket(buffers: map<int, Bytes>, recorded: map<int, seq<ObjectFrame>>, filed: map<int, seq<Bytes>>, s: int, packet: Bytes)
    requires UpToDate(buffers, recorded, filed) && s != CONTROL_STREAM
    ensures var (frames, data) := Drain(TryParse, At(buffers, s) + packet);
      UpToDate(buffers[s := data], recorded[s := ObjectsOn(recorded, s) + frames], filed[s := PacketsOn(filed, s) + [packet]])
  {
    hide TryParse, Drain;
    FeedOneMore([], PacketsOn(filed, s), packet);
    var (frames, data) := Drain(TryParse, At(buffers, s) + packet);
    var b, r, f := buffers[s := data], recorded[s := ObjectsOn(recorded, s) + frames], filed[s := PacketsOn(filed, s) + [packet]];
    assert (ObjectsOn(recorded, s), At(buffers, s)) == Feed(TryParse, [], PacketsOn(filed, s));
    forall t | t != CONTROL_STREAM
      ensures (ObjectsOn(r, t), At(b, t)) == Feed(TryParse, [], PacketsOn(f, t))
    {
      if t != s {
        assert (ObjectsOn(recorded, t), At(buffers, t)) == Feed(TryParse, [], PacketsOn(filed, t));
      }
    }
  }

  lemma ControlFiled(buffers: map<int, Bytes>, recorded: map<int, seq<ObjectFrame>>, filed: map<int, seq<Bytes>>, data: Bytes, packet: Bytes)
    requires UpToDate(buffers, recorded, filed)
    ensures UpToDate(buffers[CONTROL_STREAM := data], recorded, filed[CONTROL_STREAM := PacketsOn(filed, CONTROL_STREAM) + [packet]])
  {
    hide TryParse, Drain, Feed;
  }

  class MoqSubscriberApp {
    var recvPending: set<int>
    var recvInFlight: int

    /** Per data stream: the bytes of the object not yet complete, and the objects recorded. */
    var streamBuffers: map<int, Bytes>
    var recorded: map<int, seq<ObjectFrame>>

    // The packets filed under each stream so far.
    ghost var filed: map<int, seq<Bytes>>

    ghost function Now(): App
      reads this
    {
      App(recvPending, recvInFlight, filed)
    }

    ghost predicate Valid()
      reads this
    {
      recvInFlight >= NONE && UpToDate(streamBuffers, recorded, filed)
    }

    constructor ()
      ensures Valid() && Now() == START.app
    {
      recvPending, recvInFlight := {}, NONE;
      streamBuffers, recorded, filed := map[], map[], map[];
    }

    /** The least waiting stream; the recv it issues is returned. */
    method StartNextRecv() returns (issued: seq<int>)
      modifies this`recvPending, this`recvInFlight
      ensures (Now(), issued) == StartNext(old(Now()))
    {
      if !exists s :: s in recvPending {
        recvInFlight := NONE;
        return [];
      }
      ghost var x :| x in recvPending;
      LeastExists(recvPending, x);
      var s :| s in recvPending && forall t :: t in recvPending ==> s <= t;
      assert s == Least(recvPending);
      recvPending := recvPending - {s};
      recvInFlight := s;
      issued := [s];
    }

    method SocketDataAvailable(s: int) returns (issued: seq<int>)
      requires Valid() && s >= 0 && forall t :: t in recvPending ==> t >= 0
      modifies this`recvPending, this`recvInFlight
      ensures Valid() && (Now(), issued) == OnAvailable(old(Now()), s)
    {
      hide UpToDate;
      if recvInFlight == s {
        return [];
      }
      recvPending := recvPending + {s};
      issued := [];
      if recvInFlight < 0 {
        issued := StartNextRecv();
      }
    }

    /** The packet is taken to be of the stream of the outstanding recv; its whole objects are recorded. */
    method SocketDataArrived(packet: Bytes) returns (issued: seq<int>)
      requires Valid() && forall t :: t in recvPending ==> t >= 0
      modifies this
      ensures Valid() && (Now(), issued) == OnPacket(old(Now()), packet)
    {
      hide UpToDate;
      var streamId := recvInFlight;
      recvInFlight := NONE;
      FilePacket(streamId, packet);
      issued := StartNextRecv();
    }

    /** Append to the stream's buffer and take whole objects off its front. */
    method FilePacket(streamId: int, packet: Bytes)
      requires UpToDate(streamBuffers, recorded, filed)
      modifies this`streamBuffers, this`recorded, this`filed
      ensures UpToDate(streamBuffers, recorded, filed)
      ensures filed == old(filed)[streamId := PacketsOn(old(filed), streamId) + [packet]]
    {
      hide UpToDate, TryParse, Drain;
      var data := At(streamBuffers, streamId) + packet;
      if streamId == CONTROL_STREAM {
        ControlFiled(streamBuffers, recorded, filed, data, packet);
      } else {
        OneMorePacket(streamBuffers, recorded, filed, streamId, packet);
        var frames;
        frames, data := DrainBuffer(data);
        recorded := recorded[streamId := ObjectsOn(recorded, streamId) + frames];
      }
      streamBuffers := streamBuffers[streamId := data];
      filed := filed[streamId := PacketsOn(filed, streamId) + [packet]];
    }

    /** The parse loop over one stream's buffer. */
    method DrainBuffer(all: Bytes) returns (frames: seq<ObjectFrame>, data: Bytes)
      ensures (frames, data) == Drain(TryParse, all)
    {
      hide TryParse;
      frames, data := [], all;
      assert [] + Drain(TryParse, all).0 == Drain(TryParse, all).0;
      var parsed := TryParse(data);
      while parsed.Got? && 0 < parsed.consumed <= |data|
        invariant parsed == TryParse(data)
        invariant Drain(TryParse, all).0 == frames + Drain(TryParse, data).0
        invariant Drain(TryParse, all).1 == Drain(TryParse, data).1
        decreases |data|
      {
        frames := frames + [parsed.value];
        data := data[parsed.consumed..];
        parsed := TryParse(data);
      }
      assert Drain(TryParse, data) == ([], data);
      assert frames + [] == frames;
    }
  }
}
