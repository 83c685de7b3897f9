/** Splitting a frame into datagrams, and putting it together again whatever order they come in. */
module UdpFragments {
  import opened Wrappers
  import opened Bytes
  import opened MoqFraming

  datatype Fragment = Fragment(
    msgClass: byte,
    objectId: int,
    fragIndex: nat,
    fragCount: nat,
    fragOffset: nat,
    totalLen: nat,
    trackAlias: Bytes,
    chunk: Bytes)

  const HEADER := 1 + 8 + 4 * 4 + 4

  function Header(f: Fragment): (b: Bytes)
    ensures |b| == HEADER
  {
    [f.msgClass] + I64(f.objectId) + U32(f.fragIndex) + U32(f.fragCount) + U32(f.fragOffset) + U32(f.totalLen) + U32(|f.trackAlias|)
  }

  function EncodeFragment(f: Fragment): Bytes {
    Header(f) + f.trackAlias + f.chunk
  }

  function GetU32(b: Bytes, at: nat): nat
    requires at + 4 <= |b|
  {
    FromLittleEndian(b[at..at + 4])
  }

  /** parseUdpFragment: one whole datagram, refused when too short for what it announces. */
  function ParseFragment(b: Bytes): Option<Fragment> {
    if |b| < HEADER then None else
      var aliasLen := GetU32(b, 25);
      if HEADER + aliasLen > |b| then None else
        Some(Fragment(b[0], GetI64(b[1..9]), GetU32(b, 9), GetU32(b, 13), GetU32(b, 17), GetU32(b, 21),
                      b[HEADER..HEADER + aliasLen], b[HEADER + aliasLen..]))
  }

  /** Every field is a value its C++ type can hold. */
  predicate Fits(f: Fragment) {
    && IsInt64(f.objectId)
    && f.fragIndex < TWO_32 && f.fragCount < TWO_32 && f.fragOffset < TWO_32 && f.totalLen < TWO_32
    && |f.trackAlias| < TWO_32
  }

  lemma HeaderFields(f: Fragment)
    ensures var b := EncodeFragment(f);
      && b[0] == f.msgClass && b[1..9] == I64(f.objectId)
      && b[9..13] == U32(f.fragIndex) && b[13..17] == U32(f.fragCount)
      && b[17..21] == U32(f.fragOffset) && b[21..25] == U32(f.totalLen)
      && b[25..29] == U32(|f.trackAlias|)
      && b[HEADER..] == f.trackAlias + f.chunk
  {
    var b := EncodeFragment(f);
    assert b[..HEADER] == Header(f);
    assert Header(f)[1..9] == I64(f.objectId) && Header(f)[9..13] == U32(f.fragIndex);
    assert Header(f)[13..17] == U32(f.fragCount) && Header(f)[17..21] == U32(f.fragOffset);
    assert Header(f)[21..25] == U32(f.totalLen) && Header(f)[25..29] == U32(|f.trackAlias|);
  }

  /** What each field is parsed from. */
  lemma FragmentParsed(f: Fragment)
    ensures var rest, n := f.trackAlias + f.chunk, |f.trackAlias| % TWO_32;
      ParseFragment(EncodeFragment(f)) == Some(Fragment(f.msgClass, GetI64(I64(f.objectId)),
        FromLittleEndian(U32(f.fragIndex)), FromLittleEndian(U32(f.fragCount)),
        FromLittleEndian(U32(f.fragOffset)), FromLittleEndian(U32(f.totalLen)), rest[..n], rest[n..]))
  {
    var b, rest, n := EncodeFragment(f), f.trackAlias + f.chunk, |f.trackAlias| % TWO_32;
    HeaderFields(f);
    U32RoundTrip(|f.trackAlias|);
    assert |b| == HEADER + |rest|;
    hide EncodeFragment, FromLittleEndian, U32, I64, GetI64;
    assert b[HEADER..HEADER + n] == b[HEADER..][..n];
    assert b[HEADER + n..] == b[HEADER..][n..];
  }

  lemma AliasSplit(alias: Bytes, chunk: Bytes)
    ensures var rest, n := alias + chunk, |alias| % TWO_32;
      n <= |rest| && (rest[..n] == alias && rest[n..] == chunk <==> |alias| < TWO_32)
  {
    var rest, n := alias + chunk, |alias| % TWO_32;
    if |alias| < TWO_32 {
      assert rest[..n] == alias && rest[n..] == chunk;
    } else {
      assert |rest[..n]| < |alias|;
    }
  }

  lemma U32Survives(v: nat)
    ensures FromLittleEndian(U32(v)) == v <==> v < TWO_32
  {
    U32RoundTrip(v);
    hide FromLittleEndian, U32;
  }

  /** A datagram parses back to its fragment exactly when every field fits its width. */
  lemma FragmentRoundTripIffFits(f: Fragment)
    ensures ParseFragment(EncodeFragment(f)) == Some(f) <==> Fits(f)
  {
    hide ParseFragment, EncodeFragment, FromLittleEndian, U32, I64, GetI64;
    FragmentParsed(f);
    I64RoundTrip(f.objectId);
    U32Survives(f.fragIndex);
    U32Survives(f.fragCount);
    U32Survives(f.fragOffset);
    U32Survives(f.totalLen);
    AliasSplit(f.trackAlias, f.chunk);
  }

  // ---- Splitting ----

  function ChunkSize(maxChunk: nat): (n: nat)
    ensures n > 0
  {
    if maxChunk == 0 then 1 else maxChunk
  }

  /** How many datagrams: one at least, and otherwise as many chunks as it takes. */
  function Count(size: nat, maxChunk: nat): nat {
    var n := (size + ChunkSize(maxChunk) - 1) / ChunkSize(maxChunk);
    if n == 0 then 1 else n
  }

  function Offset(i: nat, m: nat): nat { i * m }

  /** The chunk that byte `p` travels in. */
  function Home(p: nat, m: nat): nat
    requires m > 0
  {
    p / m
  }

  lemma MulMonotone(a: nat, b: nat, c: nat)
    requires b <= c
    ensures a * b <= a * c
  {
  }

  /** There is a datagram for every byte, and none starts behind the end of the frame. */
  lemma CountCovers(size: nat, maxChunk: nat)
    ensures var n, m := Count(size, maxChunk), ChunkSize(maxChunk);
      n >= 1 && size <= Offset(n, m) && forall i: nat :: i < n ==> Offset(i, m) <= size
  {
    var n, m := Count(size, maxChunk), ChunkSize(maxChunk);
    var q := (size + m - 1) / m;
    assert q * m + (size + m - 1) % m == size + m - 1;
    assert (n - 1) * m == n * m - m;
    forall i: nat | i < n
      ensures Offset(i, m) <= size
    {
      MulMonotone(m, i, n - 1);
    }
  }

  lemma HomeIff(p: nat, m: nat, i: nat)
    requires m > 0
    ensures Home(p, m) == i <==> Offset(i, m) <= p < Offset(i, m) + m
  {
    var q := p / m;
    assert q * m + p % m == p;
    assert (i + 1) * m == i * m + m;
    if q < i {
      assert (q + 1) * m == q * m + m;
      MulMonotone(m, q + 1, i);
    } else if q > i {
      MulMonotone(m, i + 1, q);
    }
  }

  lemma HomeBelow(p: nat, m: nat, n: nat)
    requires m > 0 && p < Offset(n, m)
    ensures Home(p, m) < n
  {
    var q := p / m;
    assert q * m + p % m == p;
    if q >= n {
      MulMonotone(m, n, q);
    }
  }

  /** The `i`th fragment of a frame. */
  function FragmentAt(msgClass: byte, alias: Bytes, objectId: int, frame: Bytes, maxChunk: nat, i: nat): Fragment
    requires i < Count(|frame|, maxChunk)
  {
    var m := ChunkSize(maxChunk);
    CountCovers(|frame|, maxChunk);
    var off := Offset(i, m);
    Fragment(msgClass, objectId, i, Count(|frame|, maxChunk), off, |frame|, alias, frame[off..off + Min(m, |frame| - off)])
  }

  /** fragmentFrame: the datagrams of a frame. */
  method FragmentFrame(msgClass: byte, alias: Bytes, objectId: int, frame: Bytes, maxChunk: nat) returns (out: seq<Bytes>)
    ensures |out| == Count(|frame|, maxChunk)
    ensures forall i :: 0 <= i < |out| ==> out[i] == EncodeFragment(FragmentAt(msgClass, alias, objectId, frame, maxChunk, i))
  {
    hide EncodeFragment, FragmentAt, Offset;
    var m := if maxChunk == 0 then 1 else maxChunk;
    var fragCount := (|frame| + m - 1) / m;
    if fragCount == 0 {
      fragCount := 1;
    }
    assert fragCount == Count(|frame|, maxChunk) && m == ChunkSize(maxChunk);
    hide Count, ChunkSize;
    CountCovers(|frame|, maxChunk);
    out := [];
    for i := 0 to fragCount
      invariant |out| == i
      invariant forall k :: 0 <= k < i ==> out[k] == EncodeFragment(FragmentAt(msgClass, alias, objectId, frame, maxChunk, k))
    {
      FragmentIs(msgClass, alias, objectId, frame, maxChunk, i);
      var off := Offset(i, m);
      var len := Min(m, |frame| - off);
      out := out + [EncodeFragment(Fragment(msgClass, objectId, i, fragCount, off, |frame|, alias, frame[off..off + len]))];
    }
  }

  lemma FragmentIs(msgClass: byte, alias: Bytes, objectId: int, frame: Bytes, maxChunk: nat, i: nat)
    requires i < Count(|frame|, maxChunk)
    ensures var off, m := Offset(i, ChunkSize(maxChunk)), ChunkSize(maxChunk);
      && off <= |frame|
      && FragmentAt(msgClass, alias, objectId, frame, maxChunk, i) ==
        Fragment(msgClass, objectId, i, Count(|frame|, maxChunk), off, |frame|, alias, frame[off..off + Min(m, |frame| - off)])
  {
    CountCovers(|frame|, maxChunk);
  }

  /** All fragments but the last are as long as they may be; the last has the rest, and is empty only for an empty frame. */
  lemma FragmentSizes(msgClass: byte, alias: Bytes, objectId: int, frame: Bytes, maxChunk: nat, i: nat)
    requires i < Count(|frame|, maxChunk)
    ensures var f, n := FragmentAt(msgClass, alias, objectId, frame, maxChunk, i), Count(|frame|, maxChunk);
      var m := if maxChunk == 0 then 1 else maxChunk;
      && f.msgClass == msgClass && f.objectId == objectId && f.trackAlias == alias
      && f.fragIndex == i && f.fragCount == n && f.fragOffset == i * m && f.totalLen == |frame|
      && i * m + |f.chunk| <= |frame| && f.chunk == frame[i * m..i * m + |f.chunk|]
      && (i + 1 < n ==> |f.chunk| == m) && (i + 1 == n ==> i * m + |f.chunk| == |frame|)
      && |f.chunk| <= m && (frame != [] ==> 0 < |f.chunk|) && (frame == [] ==> n == 1)
  {
    var n, m := Count(|frame|, maxChunk), ChunkSize(maxChunk);
    CountCovers(|frame|, maxChunk);
    FragmentIs(msgClass, alias, objectId, frame, maxChunk, i);
    CountTight(|frame|, maxChunk);
    assert (i + 1) * m == i * m + m;
    if i + 1 < n {
      MulMonotone(m, i + 1, n - 1);
    }
    hide Count, FragmentAt;
  }

  lemma CountTight(size: nat, maxChunk: nat)
    ensures var n, m := Count(size, maxChunk), ChunkSize(maxChunk);
      && (size > 0 ==> Offset(n - 1, m) < size) && (size == 0 ==> n == 1)
  {
    var m := ChunkSize(maxChunk);
    var q := (size + m - 1) / m;
    assert q * m + (size + m - 1) % m == size + m - 1;
    assert (q - 1) * m == q * m - m;
    if size == 0 {
      assert (m - 1) / m == 0;
    }
  }

  // ---- Putting together ----

  function CountTrue(have: seq<bool>): (n: nat)
    ensures n <= |have|
  {
    if have == [] then 0 else CountTrue(have[..|have| - 1]) + if have[|have| - 1] then 1 else 0
  }

  lemma {:induction false} CountTrueSet(have: seq<bool>, i: nat)
    requires i < |have| && !have[i]
    ensures CountTrue(have[i := true]) == CountTrue(have) + 1
  {
    var n := |have| - 1;
    if i < n {
      CountTrueSet(have[..n], i);
      assert have[i := true][..n] == have[..n][i := true];
    } else {
      assert have[i := true][..n] == have[..n];
    }
  }

  lemma {:induction false} CountTrueFull(have: seq<bool>)
    ensures CountTrue(have) == |have| <==> forall i :: 0 <= i < |have| ==> have[i]
  {
    if have != [] {
      CountTrueFull(have[..|have| - 1]);
    }
  }

  /** What the reassembler holds; `fragCount` is 0 until the first fragment comes. */
  datatype Reassembly = Reassembly(fragCount: nat, totalLen: nat, receivedFrags: nat, data: Bytes, have: seq<bool>, firstByteTime: int, complete: bool)

  const EMPTY := Reassembly(0, 0, 0, [], [], -1, false)

  predicate WellFormed(s: Reassembly) {
    |s.have| == s.fragCount
  }

  /** `add`: the new state, and whether this fragment was the last one missing. */
  function Absorb(s0: Reassembly, f: Fragment, now: int): (r: (Reassembly, bool))
    requires WellFormed(s0)
    ensures WellFormed(r.0)
  {
    var s1 := if s0.firstByteTime < 0 then s0.(firstByteTime := now) else s0;
    var s2 := if s1.fragCount == 0 then
      s1.(fragCount := f.fragCount, totalLen := f.totalLen, data := Zeros(f.totalLen), have := seq(f.fragCount, _ => false))
    else s1;
    if f.fragIndex >= s2.fragCount || s2.have[f.fragIndex] then (s2, false) else
      var s3 := s2.(have := s2.have[f.fragIndex := true], receivedFrags := s2.receivedFrags + 1);
      var s4 := if f.fragOffset + |f.chunk| <= |s3.data| then
        s3.(data := s3.data[..f.fragOffset] + f.chunk + s3.data[f.fragOffset + |f.chunk|..])
      else s3;
      if s4.receivedFrags == s4.fragCount && !s4.complete then (s4.(complete := true), true) else (s4, false)
  }

  class UdpObjectReassembler {
    var fragCount: nat
    var totalLen: nat
    var receivedFrags: nat
    var data: Bytes
    var have: seq<bool>
    var firstByteTime: int
    var complete: bool

    ghost function State(): Reassembly
      reads this
    {
      Reassembly(fragCount, totalLen, receivedFrags, data, have, firstByteTime, complete)
    }

    constructor ()
      ensures State() == EMPTY
    {
      fragCount, totalLen, receivedFrags := 0, 0, 0;
      data, have := [], [];
      firstByteTime, complete := -1, false;
    }

    method Add(f: Fragment, now: int) returns (done: bool)
      requires WellFormed(State())
      modifies this
      ensures (State(), done) == Absorb(old(State()), f, now)
    {
      if firstByteTime < 0 {
        firstByteTime := now;
      }
      if fragCount == 0 {
        fragCount := f.fragCount;
        totalLen := f.totalLen;
        data := seq(totalLen, _ => 0);
        have := seq(fragCount, _ => false);
        assert data == Zeros(f.totalLen);
      }
      if f.fragIndex >= fragCount {
        return false;
      }
      if have[f.fragIndex] {
        return false;
      }
      have := have[f.fragIndex := true];
      receivedFrags := receivedFrags + 1;
      if f.fragOffset + |f.chunk| <= |data| {
        data := data[..f.fragOffset] + f.chunk + data[f.fragOffset + |f.chunk|..];
      }
      if receivedFrags == fragCount && !complete {
        complete := true;
        return true;
      }
      return false;
    }
  }

  /** The frame, its chunk size and its fragments' common fields. */
  datatype Sender = Sender(msgClass: byte, alias: Bytes, objectId: int, frame: Bytes, maxChunk: nat) {
    function Fragments(): nat { Count(|frame|, maxChunk) }
    function At(i: nat): Fragment requires i < Fragments() { FragmentAt(msgClass, alias, objectId, frame, maxChunk, i) }
  }

  /** Having received the fragments of `seen`, in whatever order: their bytes are in place. */
  ghost predicate Holds(s: Reassembly, from: Sender, seen: set<nat>) {
    && s.fragCount == from.Fragments() && s.totalLen == |from.frame| == |s.data|
    && |s.have| == s.fragCount
    && (forall i: nat :: i < s.fragCount ==> (s.have[i] <==> i in seen))
    && s.receivedFrags == CountTrue(s.have)
    && (s.complete <==> All(from, seen))
    && forall p: nat :: p < |s.data| && Home(p, ChunkSize(from.maxChunk)) in seen ==> s.data[p] == from.frame[p]
  }

  /** No fragment is missing. */
  ghost predicate All(from: Sender, seen: set<nat>) {
    forall i: nat :: i < from.Fragments() ==> i in seen
  }

  /** With every fragment in place the data is the frame. */
  lemma WholeFrame(s: Reassembly, from: Sender, seen: set<nat>)
    requires Holds(s, from, seen) && All(from, seen)
    ensures s.data == from.frame
  {
    hide Count, Offset, Home, ChunkSize, CountTrue;
    var m := ChunkSize(from.maxChunk);
    CountCovers(|from.frame|, from.maxChunk);
    forall p: nat | p < |s.data|
      ensures s.data[p] == from.frame[p]
    {
      HomeBelow(p, m, from.Fragments());
    }
  }

  /** The fragment's chunk is the part of the frame that travels in it, and fits where it belongs. */
  lemma ChunkInPlace(from: Sender, i: nat)
    requires i < from.Fragments()
    ensures var f, m := from.At(i), ChunkSize(from.maxChunk);
      && f.fragIndex == i && f.fragCount == from.Fragments() && f.totalLen == |from.frame|
      && f.fragOffset + |f.chunk| <= |from.frame|
      && f.chunk == from.frame[f.fragOffset..f.fragOffset + |f.chunk|]
      && forall p: nat :: p < |from.frame| ==> (f.fragOffset <= p < f.fragOffset + |f.chunk| <==> Home(p, m) == i)
  {
    hide Count, Offset, Home, ChunkSize, FragmentAt;
    var f, m := from.At(i), ChunkSize(from.maxChunk);
    FragmentIs(from.msgClass, from.alias, from.objectId, from.frame, from.maxChunk, i);
    forall p: nat | p < |from.frame|
      ensures f.fragOffset <= p < f.fragOffset + |f.chunk| <==> Home(p, m) == i
    {
      HomeIff(p, m, i);
    }
  }

  /** The bytes of fragment `i` in their place, the others where they were. */
  lemma BytesInPlace(data: Bytes, from: Sender, seen: set<nat>, i: nat)
    requires i < from.Fragments() && |data| == |from.frame|
    requires forall p: nat :: p < |data| && Home(p, ChunkSize(from.maxChunk)) in seen ==> data[p] == from.frame[p]
    ensures var f := from.At(i);
      && f.fragOffset + |f.chunk| <= |data|
      && var data' := data[..f.fragOffset] + f.chunk + data[f.fragOffset + |f.chunk|..];
        && |data'| == |data|
        && forall p: nat :: p < |data| && Home(p, ChunkSize(from.maxChunk)) in seen + {i} ==> data'[p] == from.frame[p]
  {
    ChunkInPlace(from, i);
    hide *;
  }

  lemma AbsorbNew(s: Reassembly, from: Sender, seen: set<nat>, i: nat, now: int)
    requires Holds(s, from, seen) && i < from.Fragments() && i !in seen
    ensures var r := Absorb(s, from.At(i), now);
      && Holds(r.0, from, seen + {i})
      && (r.1 <==> All(from, seen + {i}))
  {
    ChunkInPlace(from, i);
    BytesInPlace(s.data, from, seen, i);
    CountTrueSet(s.have, i);
    CountTrueFull(s.have[i := true]);
    hide Count, Offset, Home, ChunkSize, FragmentAt, CountTrue;
    var r, have, seen' := Absorb(s, from.At(i), now), s.have[i := true], seen + {i};
    assert !All(from, seen);
    assert r.0.have == have && r.0.receivedFrags == CountTrue(have);
    assert forall k: nat :: k < s.fragCount ==> (have[k] <==> k in seen');
    assert CountTrue(have) == |have| <==> All(from, seen');
  }

  /** One more fragment of the sender, whether new or a duplicate. */
  lemma AbsorbOne(s: Reassembly, from: Sender, seen: set<nat>, i: nat, now: int)
    requires Holds(s, from, seen) && i < from.Fragments()
    ensures var r := Absorb(s, from.At(i), now);
      && Holds(r.0, from, seen + {i})
      && (r.1 <==> !All(from, seen) && All(from, seen + {i}))
  {
    hide Count, Offset, Home, ChunkSize, FragmentAt, CountTrue;
    if i in seen {
      ChunkInPlace(from, i);
      assert seen + {i} == seen;
    } else {
      AbsorbNew(s, from, seen, i, now);
    }
  }

  /** The very first fragment. */
  lemma AbsorbFirst(from: Sender, i: nat, now: int)
    requires i < from.Fragments()
    ensures var r := Absorb(EMPTY, from.At(i), now);
      && Holds(r.0, from, {i})
      && (r.1 <==> All(from, {i}))
  {
    var n := from.Fragments();
    ChunkInPlace(from, i);
    CountCovers(|from.frame|, from.maxChunk);
    var s := Reassembly(n, |from.frame|, 0, Zeros(|from.frame|), seq(n, _ => false), EMPTY.firstByteTime, false);
    NoneTrue(n);
    hide Count, Offset, Home, ChunkSize, FragmentAt, CountTrue;
    NotAllOfNone(from);
    assert Holds(s, from, {});
    assert Absorb(EMPTY, from.At(i), now) == Absorb(s, from.At(i), now);
    AbsorbNew(s, from, {}, i, now);
    assert {} + {i} == {i};
  }

  lemma {:induction false} NoneTrue(n: nat)
    ensures CountTrue(seq(n, _ => false)) == 0
  {
    if n > 0 {
      NoneTrue(n - 1);
      assert seq(n, _ => false)[..n - 1] == seq(n - 1, _ => false);
    }
  }

  /** Datagrams as they arrive, each with its time. */
  datatype Arrival = Arrival(datagram: Bytes, at: int)

  /** Parse each datagram and add its fragment; what `add` returned each time. */
  function Receive(s: Reassembly, arrivals: seq<Arrival>): (r: (Reassembly, seq<bool>))
    requires WellFormed(s)
    ensures WellFormed(r.0) && |r.1| == |arrivals|
  {
    if arrivals == [] then (s, []) else
      var (t, flags) := Receive(s, arrivals[..|arrivals| - 1]);
      var last := arrivals[|arrivals| - 1];
      match ParseFragment(last.datagram)
      case None => (t, flags + [false])
      case Some(f) =>
        var (u, done) := Absorb(t, f, last.at);
        (u, flags + [done])
  }

  /** The arrivals are datagrams of the frame: `order` says which, with any repetitions and omissions. */
  ghost predicate ArrivalsOf(from: Sender, order: seq<nat>, arrivals: seq<Arrival>) {
    && |arrivals| == |order|
    && forall k :: 0 <= k < |order| ==> order[k] < from.Fragments() && arrivals[k].datagram == EncodeFragment(from.At(order[k]))
  }

  ghost predicate Sendable(from: Sender) {
    IsInt64(from.objectId) && |from.frame| < TWO_32 && |from.alias| < TWO_32
  }

  lemma FragmentsFit(from: Sender, i: nat)
    requires Sendable(from) && i < from.Fragments()
    ensures Fits(from.At(i))
  {
    CountCovers(|from.frame|, from.maxChunk);
    CountSmall(|from.frame|, from.maxChunk);
  }

  lemma CountSmall(size: nat, maxChunk: nat)
    ensures Count(size, maxChunk) <= size + 1
    ensures size > 0 ==> Count(size, maxChunk) <= size
  {
    var m := ChunkSize(maxChunk);
    var q := (size + m - 1) / m;
    assert q * m + (size + m - 1) % m == size + m - 1;
    if q > size {
      MulMonotone(m, size + 1, q);
      assert m * (size + 1) == m * size + m;
      MulMonotone(size, 1, m);
    }
  }

  function Seen(order: seq<nat>): set<nat> {
    set i | i in order
  }

  /** The flag of each arrival says that it, and no earlier one, completed the frame. */
  ghost predicate Flagged(from: Sender, order: seq<nat>, flags: seq<bool>) {
    && |flags| == |order|
    && forall k {:trigger flags[k]} :: 0 <= k < |order| ==> (flags[k] <==> !All(from, Seen(order[..k])) && All(from, Seen(order[..k + 1])))
  }

  lemma FlaggedOneMore(from: Sender, order: seq<nat>, flags: seq<bool>, i: nat, done: bool)
    requires Flagged(from, order, flags)
    requires done <==> !All(from, Seen(order)) && All(from, Seen(order + [i]))
    ensures Flagged(from, order + [i], flags + [done])
  {
    var order', flags' := order + [i], flags + [done];
    forall k: nat | k < |order'|
      ensures flags'[k] <==> !All(from, Seen(order'[..k])) && All(from, Seen(order'[..k + 1]))
    {
      if k < |order| {
        assert order'[..k] == order[..k] && order'[..k + 1] == order[..k + 1];
        assert flags'[k] == flags[k];
      } else {
        assert order'[..k] == order && order'[..k + 1] == order';
      }
    }
  }

  /** The last arrival parses to its fragment. */
  lemma LastArrival(from: Sender, order: seq<nat>, arrivals: seq<Arrival>)
    requires Sendable(from) && ArrivalsOf(from, order, arrivals) && order != []
    ensures var n := |order| - 1;
      && |arrivals| == |order| && order[n] < from.Fragments()
      && ArrivalsOf(from, order[..n], arrivals[..n])
      && ParseFragment(arrivals[n].datagram) == Some(from.At(order[n]))
  {
    var n := |order| - 1;
    FragmentsFit(from, order[n]);
    FragmentRoundTripIffFits(from.At(order[n]));
    hide ParseFragment, EncodeFragment, Fits, Sendable;
  }

  lemma ReceiveLast(s: Reassembly, arrivals: seq<Arrival>, f: Fragment)
    requires WellFormed(s) && arrivals != [] && ParseFragment(arrivals[|arrivals| - 1].datagram) == Some(f)
    ensures var n := |arrivals| - 1;
      var (t, flags) := Receive(s, arrivals[..n]);
      var (u, done) := Absorb(t, f, arrivals[n].at);
      Receive(s, arrivals) == (u, flags + [done])
  {
    hide ParseFragment, Absorb;
  }

  lemma NothingReceived()
    ensures WellFormed(EMPTY) && Receive(EMPTY, []) == (EMPTY, [])
    ensures Seen([]) == {}
  {
  }

  /** What holds after the arrivals so far. */
  ghost predicate Received(from: Sender, order: seq<nat>, arrivals: seq<Arrival>) {
    var (s, flags) := Receive(EMPTY, arrivals);
    && (if order == [] then s == EMPTY else Holds(s, from, Seen(order)))
    && Flagged(from, order, flags)
  }

  lemma ReceivedOneMore(from: Sender, order: seq<nat>, arrivals: seq<Arrival>, i: nat, s: Reassembly, flags: seq<bool>, now: int)
    requires Received(from, order, arrivals) && Receive(EMPTY, arrivals) == (s, flags) && i < from.Fragments()
    ensures var (t, done) := Absorb(s, from.At(i), now);
      Holds(t, from, Seen(order + [i])) && Flagged(from, order + [i], flags + [done])
  {
    SeenOneMore(order, i);
    NothingReceived();
    if order == [] {
      AbsorbFirst(from, i, now);
      NotAllOfNone(from);
      assert {} + {i} == {i};
    } else {
      AbsorbOne(s, from, Seen(order), i, now);
    }
    hide Holds, All, Absorb, Flagged, Seen, Receive;
    FlaggedOneMore(from, order, flags, i, Absorb(s, from.At(i), now).1);
  }

  lemma {:induction false} ReceivePrefix(from: Sender, order: seq<nat>, arrivals: seq<Arrival>)
    requires Sendable(from) && ArrivalsOf(from, order, arrivals)
    ensures Received(from, order, arrivals)
  {
    hide Holds, Absorb, Flagged, Seen, All, ParseFragment, EncodeFragment, ArrivalsOf, Sendable, FragmentAt;
    if order == [] {
      NoArrivals(from, order, arrivals);
    } else {
      var n := |order| - 1;
      LastArrival(from, order, arrivals);
      ReceivePrefix(from, order[..n], arrivals[..n]);
      ReceiveLast(EMPTY, arrivals, from.At(order[n]));
      var (s, flags) := Receive(EMPTY, arrivals[..n]);
      ReceivedOneMore(from, order[..n], arrivals[..n], order[n], s, flags, arrivals[n].at);
      assert order == order[..n] + [order[n]];
    }
  }

  lemma NoArrivals(from: Sender, order: seq<nat>, arrivals: seq<Arrival>)
    requires ArrivalsOf(from, order, arrivals) && order == []
    ensures Received(from, order, arrivals)
  {
  }

  lemma SeenOneMore(order: seq<nat>, i: nat)
    ensures Seen(order + [i]) == Seen(order) + {i}
  {
  }

  lemma NotAllOfNone(from: Sender)
    ensures !All(from, {})
  {
    CountCovers(|from.frame|, from.maxChunk);
    var none: set<nat> := {};
    assert 0 !in none;
  }

  /**
   * Whatever the order of the datagrams, with any duplicates and losses: `add` returns true at the arrival
   * that completes the frame and at no other, and then and from then on the data is the frame.
   */
  lemma ReassemblyInvertsFragmentation(from: Sender, order: seq<nat>, arrivals: seq<Arrival>)
    requires Sendable(from) && ArrivalsOf(from, order, arrivals)
    ensures var (s, flags) := Receive(EMPTY, arrivals);
      && (forall k {:trigger flags[k]} :: 0 <= k < |order| ==> (flags[k] <==> !All(from, Seen(order[..k])) && All(from, Seen(order[..k + 1]))))
      && (forall j, k :: 0 <= j < k < |order| ==> !(flags[j] && flags[k]))
      && (All(from, Seen(order)) <==> true in flags)
      && (All(from, Seen(order)) ==> s.complete && s.data == from.frame)
      && (!All(from, Seen(order)) ==> !s.complete)
  {
    hide Holds, Absorb, Flagged, ParseFragment, EncodeFragment, ArrivalsOf, Sendable, FragmentAt, Receive;
    ReceivePrefix(from, order, arrivals);
    NotAllOfNone(from);
    var (s, flags) := Receive(EMPTY, arrivals);
    FlagsRaisedOnce(from, order, flags);
    NothingReceived();
    FlaggedMeans(from, order, flags);
    if order != [] {
      Outcome(s, from, Seen(order));
    } else {
      assert !All(from, Seen(order));
    }
  }

  lemma Outcome(s: Reassembly, from: Sender, seen: set<nat>)
    requires Holds(s, from, seen)
    ensures s.complete <==> All(from, seen)
    ensures All(from, seen) ==> s.data == from.frame
  {
    if All(from, seen) {
      WholeFrame(s, from, seen);
    }
  }

  lemma FlagAt(from: Sender, order: seq<nat>, flags: seq<bool>, k: nat)
    requires Flagged(from, order, flags) && k < |order|
    ensures flags[k] <==> !All(from, Seen(order[..k])) && All(from, Seen(order[..k + 1]))
  {
  }

  lemma FlaggedMeans(from: Sender, order: seq<nat>, flags: seq<bool>)
    requires Flagged(from, order, flags)
    ensures |flags| == |order|
    ensures forall k {:trigger flags[k]} :: 0 <= k < |order| ==> (flags[k] <==> !All(from, Seen(order[..k])) && All(from, Seen(order[..k + 1])))
  {
  }

  lemma MoreSeen(from: Sender, order: seq<nat>)
    ensures forall j, k :: 0 <= j <= k <= |order| && All(from, Seen(order[..j])) ==> All(from, Seen(order[..k]))
  {
    forall j: nat, k: nat | j <= k <= |order| && All(from, Seen(order[..j]))
      ensures All(from, Seen(order[..k]))
    {
      assert forall i :: i in Seen(order[..j]) ==> i in Seen(order[..k]);
    }
  }

  /** At most one flag is raised, and one is raised if all fragments came. */
  lemma FlagsRaisedOnce(from: Sender, order: seq<nat>, flags: seq<bool>)
    requires Flagged(from, order, flags)
    ensures forall j, k :: 0 <= j < k < |order| ==> !(flags[j] && flags[k])
    ensures All(from, Seen(order)) <==> true in flags
  {
    hide *;
    MoreSeen(from, order);
    FlaggedMeans(from, order, flags);
    NotAllOfNone(from);
    NothingReceived();
    assert order[..|order|] == order && order[..0] == [];
    forall j: nat, k: nat | j < k < |order|
      ensures !(flags[j] && flags[k])
    {
      if flags[j] {
        assert All(from, Seen(order[..j + 1]));
        assert All(from, Seen(order[..k]));
        FlagAt(from, order, flags, k);
      }
    }
    if All(from, Seen(order)) {
      var k := FirstComplete(from, order, |order|);
      FlagAt(from, order, flags, k);
    } else {
      forall k: nat | k < |order|
        ensures !flags[k]
      {
        assert !All(from, Seen(order[..|order|]));
        assert !All(from, Seen(order[..k + 1]));
        FlagAt(from, order, flags, k);
      }
    }
  }

  /** The arrival that completes the frame. */
  lemma {:induction false} FirstComplete(from: Sender, order: seq<nat>, n: nat) returns (k: nat)
    requires 0 < n <= |order| && All(from, Seen(order[..n]))
    ensures k < n && !All(from, Seen(order[..k])) && All(from, Seen(order[..k + 1]))
  {
    if n > 1 && All(from, Seen(order[..n - 1])) {
      k := FirstComplete(from, order, n - 1);
    } else {
      k := n - 1;
      if n == 1 {
        NotAllOfNone(from);
        assert Seen(order[..0]) == {};
      }
    }
  }
}
