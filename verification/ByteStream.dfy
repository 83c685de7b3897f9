/**
 A self-delimiting encoding carried over a byte stream. A receiver appends whatever bytes arrive to a
 buffer and pulls whole items off its front until none is left. Nothing marks an item's boundary but
 the length prefix inside it, so one wrong byte would misplace every later boundary.
 */
module ByteStream {
  import opened Bytes

  /** Outcome of trying to take one item off the front of a buffer. `OutOfBounds` stands for the
      inputs on which the C++ parser would read past the end of the buffer. */
  datatype Parsed<T> = NeedMore | Got(value: T, consumed: nat) | OutOfBounds

  ghost predicate Delimits<T(!new)>(ok: T -> bool, encode: T -> Bytes, parse: Bytes -> Parsed<T>) {
    && (forall x :: ok(x) ==> |encode(x)| > 0)
    && (forall x, rest :: ok(x) ==> parse(encode(x) + rest) == Got(x, |encode(x)|))
    && (forall x, n :: ok(x) && 0 <= n < |encode(x)| ==> parse(encode(x)[..n]) == NeedMore)
  }

  function EncodeAll<T>(encode: T -> Bytes, xs: seq<T>): Bytes {
    if xs == [] then [] else encode(xs[0]) + EncodeAll(encode, xs[1..])
  }

  lemma {:induction false} EncodeAllAppend<T>(encode: T -> Bytes, xs: seq<T>, x: T)
    ensures EncodeAll(encode, xs + [x]) == EncodeAll(encode, xs) + encode(x)
  {
    if xs == [] {
      assert EncodeAll(encode, [x]) == encode(x) + EncodeAll(encode, []);
    } else {
      EncodeAllAppend(encode, xs[1..], x);
      assert (xs + [x])[1..] == xs[1..] + [x];
    }
  }

  lemma {:induction false} EncodeAllConcat<T>(encode: T -> Bytes, xs: seq<T>, ys: seq<T>)
    ensures EncodeAll(encode, xs + ys) == EncodeAll(encode, xs) + EncodeAll(encode, ys)
  {
    if xs == [] {
      assert xs + ys == ys;
    } else {
      EncodeAllConcat(encode, xs[1..], ys);
      assert (xs + ys)[1..] == xs[1..] + ys;
    }
  }

  lemma CancelPrefix(a: Bytes, b: Bytes, c: Bytes)
    requires a + b <= a + c
    ensures b <= c
  {
    assert forall i :: 0 <= i < |b| ==> b[i] == (a + b)[|a| + i] == (a + c)[|a| + i] == c[i];
  }

  /** The receive loop: parse and erase until no whole item is left. Returns the items and what remains. */
  function Drain<T>(parse: Bytes -> Parsed<T>, buf: Bytes): (seq<T>, Bytes)
    decreases |buf|
  {
    var p := parse(buf);
    if p.Got? && 0 < p.consumed <= |buf| then
      var (xs, rest) := Drain(parse, buf[p.consumed..]);
      ([p.value] + xs, rest)
    else
      ([], buf)
  }

  /** Deliver the chunks one by one, draining after each. */
  function Feed<T>(parse: Bytes -> Parsed<T>, buf: Bytes, chunks: seq<Bytes>): (seq<T>, Bytes)
    decreases |chunks|
  {
    if chunks == [] then ([], buf)
    else
      var (xs, rest) := Drain(parse, buf + chunks[0]);
      var (ys, last) := Feed(parse, rest, chunks[1..]);
      (xs + ys, last)
  }

  /** How many whole items of `xs` fit in the first `n` bytes of their encoding. */
  function WholeItems<T>(encode: T -> Bytes, xs: seq<T>, n: nat): (k: nat)
    ensures k <= |xs|
  {
    if xs == [] || n < |encode(xs[0])| then 0
    else 1 + WholeItems(encode, xs[1..], n - |encode(xs[0])|)
  }

  /** A prefix of a stream of items is the whole items that fit followed by a proper prefix of the next. */
  lemma {:induction false} PrefixSplits<T>(encode: T -> Bytes, xs: seq<T>, p: Bytes)
    requires p <= EncodeAll(encode, xs)
    ensures var k := WholeItems(encode, xs, |p|);
      && EncodeAll(encode, xs[..k]) <= p
      && var rest := p[|EncodeAll(encode, xs[..k])|..];
         if k == |xs| then rest == [] else |rest| < |encode(xs[k])| && rest <= encode(xs[k])
  {
    if xs == [] {
      assert xs[..0] == [];
    } else {
      var e := encode(xs[0]);
      if |p| < |e| {
        assert xs[..0] == [];
        assert p == EncodeAll(encode, xs)[..|p|] == e[..|p|];
      } else {
        var k := WholeItems(encode, xs[1..], |p| - |e|);
        assert p == e + p[|e|..];
        PrefixSplits(encode, xs[1..], p[|e|..]);
        assert xs[..k + 1][1..] == xs[1..][..k];
        assert p[|EncodeAll(encode, xs[..k + 1])|..] == p[|e|..][|EncodeAll(encode, xs[1..][..k])|..];
      }
    }
  }

  lemma {:induction false} DrainPrefix<T(!new)>(ok: T -> bool, encode: T -> Bytes, parse: Bytes -> Parsed<T>,
                                          xs: seq<T>, next: T, n: nat)
    requires Delimits(ok, encode, parse)
    requires ok(next) && forall x :: x in xs ==> ok(x)
    requires n < |encode(next)|
    ensures Drain(parse, EncodeAll(encode, xs) + encode(next)[..n]) == (xs, encode(next)[..n])
  {
    var tail := encode(next)[..n];
    if xs == [] {
      assert EncodeAll(encode, xs) + tail == tail;
      assert xs == [];
    } else {
      var e := encode(xs[0]);
      var rest := EncodeAll(encode, xs[1..]) + tail;
      assert EncodeAll(encode, xs) + tail == e + rest;
      assert (e + rest)[|e|..] == rest;
      DrainPrefix(ok, encode, parse, xs[1..], next, n);
      assert [xs[0]] + xs[1..] == xs;
    }
  }

  /** Whatever the chunking, feeding a prefix of a stream of items yields exactly the whole items in
      it, in order and unaltered, and leaves exactly the bytes of the unfinished one. */
  lemma {:induction false} FeedPrefix<T(!new)>(ok: T -> bool, encode: T -> Bytes, parse: Bytes -> Parsed<T>,
                                         xs: seq<T>, buf: Bytes, chunks: seq<Bytes>)
    requires Delimits(ok, encode, parse)
    requires forall x :: x in xs ==> ok(x)
    requires buf == [] || (xs != [] && |buf| < |encode(xs[0])|)
    requires buf + Concat(chunks) <= EncodeAll(encode, xs)
    ensures var k := WholeItems(encode, xs, |buf + Concat(chunks)|);
      var (got, rest) := Feed(parse, buf, chunks);
      got == xs[..k] && EncodeAll(encode, got) + rest == buf + Concat(chunks)
    decreases |chunks|
  {
    if chunks == [] {
      assert buf + Concat(chunks) == buf;
    } else {
      var p, later := buf + chunks[0], Concat(chunks[1..]);
      assert buf + Concat(chunks) == p + later;
      var k := WholeItems(encode, xs, |p|);
      DrainOfPrefix(ok, encode, parse, xs, p);
      var rest := p[|EncodeAll(encode, xs[..k])|..];
      RemainingStream(encode, xs, p, later);
      FeedPrefix(ok, encode, parse, xs[k..], rest, chunks[1..]);
      var (got, last) := Feed(parse, rest, chunks[1..]);
      assert Feed(parse, buf, chunks) == (xs[..k] + got, last);
      JoinPieces(encode, xs, k, WholeItems(encode, xs[k..], |rest + later|), p, later, last);
    }
  }

  lemma JoinPieces<T>(encode: T -> Bytes, xs: seq<T>, k: nat, j: nat, p: Bytes, later: Bytes, last: Bytes)
    requires k <= |xs| && j <= |xs[k..]| && EncodeAll(encode, xs[..k]) <= p
    requires EncodeAll(encode, xs[k..][..j]) + last == p[|EncodeAll(encode, xs[..k])|..] + later
    ensures xs[..k] + xs[k..][..j] == xs[..k + j]
    ensures EncodeAll(encode, xs[..k + j]) + last == p + later
  {
    var done := EncodeAll(encode, xs[..k]);
    assert xs[..k] + xs[k..][..j] == xs[..k + j];
    EncodeAllConcat(encode, xs[..k], xs[k..][..j]);
    assert p == done + p[|done|..];
    assert done + EncodeAll(encode, xs[k..][..j]) + last == done + (EncodeAll(encode, xs[k..][..j]) + last);
    assert p + later == done + (p[|done|..] + later);
  }

  /** What is left to receive once the whole items of the first part `p` are taken off. */
  lemma RemainingStream<T>(encode: T -> Bytes, xs: seq<T>, p: Bytes, later: Bytes)
    requires p + later <= EncodeAll(encode, xs)
    ensures var k := WholeItems(encode, xs, |p|);
      var done := EncodeAll(encode, xs[..k]);
      && done <= p
      && var rest := p[|done|..];
         && rest + later <= EncodeAll(encode, xs[k..])
         && (rest == [] || (k < |xs| && |rest| < |encode(xs[k..][0])|))
         && WholeItems(encode, xs, |p + later|) == k + WholeItems(encode, xs[k..], |rest + later|)
  {
    var k := WholeItems(encode, xs, |p|);
    assert p == (p + later)[..|p|] == EncodeAll(encode, xs)[..|p|];
    PrefixSplits(encode, xs, p);
    var done := EncodeAll(encode, xs[..k]);
    var rest := p[|done|..];
    EncodeAllConcat(encode, xs[..k], xs[k..]);
    assert xs == xs[..k] + xs[k..];
    assert p + later == done + (rest + later);
    CancelPrefix(done, rest + later, EncodeAll(encode, xs[k..]));
    WholeItemsSplit(encode, xs, k, |p + later|);
  }

  lemma {:induction false} DrainOfPrefix<T(!new)>(ok: T -> bool, encode: T -> Bytes, parse: Bytes -> Parsed<T>,
                                            xs: seq<T>, p: Bytes)
    requires Delimits(ok, encode, parse)
    requires forall x :: x in xs ==> ok(x)
    requires p <= EncodeAll(encode, xs)
    ensures var k := WholeItems(encode, xs, |p|);
      && EncodeAll(encode, xs[..k]) <= p
      && Drain(parse, p) == (xs[..k], p[|EncodeAll(encode, xs[..k])|..])
  {
    PrefixSplits(encode, xs, p);
    var k := WholeItems(encode, xs, |p|);
    var done := EncodeAll(encode, xs[..k]);
    var rest := p[|done|..];
    assert p == done + rest;
    if k < |xs| {
      assert rest == encode(xs[k])[..|rest|];
      DrainPrefix(ok, encode, parse, xs[..k], xs[k], |rest|);
    } else if k > 0 {
      assert xs[..k] == xs == xs[..k - 1] + [xs[k - 1]];
      DrainWhole(ok, encode, parse, xs);
      assert p == done;
    } else {
      assert p == [];
      assert parse([]).Got? ==> !(0 < parse([]).consumed <= 0);
    }
  }

  lemma {:induction false} DrainWhole<T(!new)>(ok: T -> bool, encode: T -> Bytes, parse: Bytes -> Parsed<T>, xs: seq<T>)
    requires Delimits(ok, encode, parse)
    requires xs != [] && forall x :: x in xs ==> ok(x)
    ensures Drain(parse, EncodeAll(encode, xs)) == (xs, [])
  {
    var x := xs[0];
    DrainPrefix(ok, encode, parse, xs, x, 0);
    assert EncodeAll(encode, xs) + encode(x)[..0] == EncodeAll(encode, xs);
  }

  lemma {:induction false} WholeItemsSplit<T>(encode: T -> Bytes, xs: seq<T>, k: nat, n: nat)
    requires k <= |xs| && |EncodeAll(encode, xs[..k])| <= n
    ensures WholeItems(encode, xs, n)
         == k + WholeItems(encode, xs[k..], n - |EncodeAll(encode, xs[..k])|)
  {
    if k == 0 {
      assert xs[..0] == [] && xs[0..] == xs;
    } else {
      assert xs[..k][1..] == xs[1..][..k - 1];
      assert xs[1..][k - 1..] == xs[k..];
      WholeItemsSplit(encode, xs[1..], k - 1, n - |encode(xs[0])|);
    }
  }
}
