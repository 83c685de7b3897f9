/** The sweep over interfering signals, and the maximum of their summed power over time that it computes. */
module Interference {
  import opened Signal

  /** A signal as the sweep sees it: a copy of its timing and of its powers, on the air during `[start, end)`. */
  datatype Burst = Burst(treeId: int, start: real, end: real, dataStart: nat, dataEnd: nat, powers: Values) {
    predicate Active(t: real) { start <= t < end }

    function Power(f: nat): real { if f < |powers| then powers[f] else 0.0 }
  }

  /** On the air for a positive time from some time on, with power only where it carries data. */
  ghost predicate WellFormed(b: Burst, width: nat) {
    && 0.0 <= b.start < b.end
    && |b.powers| == width && b.dataEnd <= width
    && (forall f :: 0 <= f < width ==> b.powers[f] >= 0.0)
    && (forall f :: 0 <= f < width && !(b.dataStart <= f < b.dataEnd) ==> b.powers[f] == 0.0)
  }

  ghost predicate AllWellFormed(bs: seq<Burst>, width: nat) {
    forall i :: 0 <= i < |bs| ==> WellFormed(bs[i], width)
  }

  /** The summed power at frequency `f` of what is on the air at `t`. */
  ghost function PowerAt(bs: seq<Burst>, t: real, f: nat): real {
    if bs == [] then 0.0 else
      var b := bs[|bs| - 1];
      PowerAt(bs[..|bs| - 1], t, f) + if b.Active(t) then b.Power(f) else 0.0
  }

  ghost function Total(bs: seq<Burst>, f: nat): real {
    if bs == [] then 0.0 else Total(bs[..|bs| - 1], f) + bs[|bs| - 1].Power(f)
  }

  function Max(a: real, b: real): real { if a < b then b else a }

  /** The highest sum seen when a burst has just begun. */
  ghost function Peak(bs: seq<Burst>, f: nat): real {
    if bs == [] then 0.0 else
      Max(Peak(bs[..|bs| - 1], f), PowerAt(bs, bs[|bs| - 1].start, f))
  }

  ghost predicate ByStart(bs: seq<Burst>) {
    forall i, j :: 0 <= i < j < |bs| ==> bs[i].start <= bs[j].start
  }

  ghost predicate ByEnd(bs: seq<Burst>) {
    forall i, j :: 0 <= i < j < |bs| ==> bs[i].end <= bs[j].end
  }

  lemma PowerAtSnoc(bs: seq<Burst>, b: Burst, t: real, f: nat)
    ensures PowerAt(bs + [b], t, f) == PowerAt(bs, t, f) + if b.Active(t) then b.Power(f) else 0.0
  {
    assert (bs + [b])[..|bs|] == bs;
  }

  lemma TotalSnoc(bs: seq<Burst>, b: Burst, f: nat)
    ensures Total(bs + [b], f) == Total(bs, f) + b.Power(f)
  {
    assert (bs + [b])[..|bs|] == bs;
  }

  lemma PeakSnoc(bs: seq<Burst>, b: Burst, f: nat)
    ensures Peak(bs + [b], f) == Max(Peak(bs, f), PowerAt(bs + [b], b.start, f))
  {
    assert (bs + [b])[..|bs|] == bs;
  }

  lemma {:induction false} PowerAtInsert(a: seq<Burst>, b: Burst, c: seq<Burst>, t: real, f: nat)
    ensures PowerAt(a + [b] + c, t, f) == PowerAt(a + c, t, f) + if b.Active(t) then b.Power(f) else 0.0
  {
    if c == [] {
      assert a + c == a && a + [b] + c == a + [b];
      PowerAtSnoc(a, b, t, f);
    } else {
      var n := |c| - 1;
      PowerAtInsert(a, b, c[..n], t, f);
      assert c == c[..n] + [c[n]];
      assert a + [b] + c == (a + [b] + c[..n]) + [c[n]] && a + c == (a + c[..n]) + [c[n]];
      PowerAtSnoc(a + [b] + c[..n], c[n], t, f);
      PowerAtSnoc(a + c[..n], c[n], t, f);
    }
  }

  lemma {:induction false} TotalInsert(a: seq<Burst>, b: Burst, c: seq<Burst>, f: nat)
    ensures Total(a + [b] + c, f) == Total(a + c, f) + b.Power(f)
  {
    if c == [] {
      assert a + c == a && a + [b] + c == a + [b];
      TotalSnoc(a, b, f);
    } else {
      var n := |c| - 1;
      TotalInsert(a, b, c[..n], f);
      assert c == c[..n] + [c[n]];
      assert a + [b] + c == (a + [b] + c[..n]) + [c[n]] && a + c == (a + c[..n]) + [c[n]];
      TotalSnoc(a + [b] + c[..n], c[n], f);
      TotalSnoc(a + c[..n], c[n], f);
    }
  }

  lemma {:induction false} AllActive(bs: seq<Burst>, t: real, f: nat)
    requires forall i :: 0 <= i < |bs| ==> bs[i].Active(t)
    ensures PowerAt(bs, t, f) == Total(bs, f)
  {
    if bs != [] {
      AllActive(bs[..|bs| - 1], t, f);
    }
  }

  /** Between two instants in which nothing begins, the sum can only fall. */
  lemma {:induction false} PowerFalls(bs: seq<Burst>, s: real, t: real, f: nat, width: nat)
    requires AllWellFormed(bs, width) && s <= t
    requires forall i :: 0 <= i < |bs| ==> bs[i].start <= s
    ensures PowerAt(bs, t, f) <= PowerAt(bs, s, f)
  {
    if bs != [] {
      PowerFalls(bs[..|bs| - 1], s, t, f, width);
    }
  }

  /** While everything is still on the air, the sum is at its highest. */
  lemma {:induction false} PowerFull(bs: seq<Burst>, s: real, t: real, f: nat, width: nat)
    requires AllWellFormed(bs, width)
    requires forall i :: 0 <= i < |bs| ==> bs[i].Active(t)
    ensures PowerAt(bs, s, f) <= PowerAt(bs, t, f)
  {
    if bs != [] {
      PowerFull(bs[..|bs| - 1], s, t, f, width);
    }
  }

  /** No instant has a higher sum than the highest seen when a burst begins. */
  lemma {:induction false} PeakBounds(bs: seq<Burst>, t: real, f: nat, width: nat)
    requires AllWellFormed(bs, width) && ByStart(bs)
    ensures PowerAt(bs, t, f) <= Peak(bs, f)
  {
    if bs != [] {
      var b := bs[|bs| - 1];
      if b.start <= t {
        PowerFalls(bs, b.start, t, f, width);
      } else {
        PeakBounds(bs[..|bs| - 1], t, f, width);
      }
    }
  }

  /** Some instant from `start` on, before the end of the window, has the highest sum seen. */
  lemma {:induction false} PeakReached(bs: seq<Burst>, start: real, end: real, f: nat, width: nat) returns (t: real)
    requires AllWellFormed(bs, width) && ByStart(bs)
    requires forall i :: 0 <= i < |bs| ==> bs[i].end > start && bs[i].start < end
    ensures start <= t && (start < end ==> t < end)
    ensures Peak(bs, f) <= PowerAt(bs, t, f)
  {
    if bs == [] {
      t := start;
    } else {
      var b := bs[|bs| - 1];
      t := PeakReached(bs[..|bs| - 1], start, end, f, width);
      if Peak(bs[..|bs| - 1], f) < PowerAt(bs, b.start, f) {
        t := Max(b.start, start);
        if b.start < start {
          PowerFull(bs, b.start, start, f, width);
        }
      }
    }
  }

  /** What the sweep takes into account: other transmissions that overlap the interval of interest. */
  function Considered(bs: seq<Burst>, treeId: int, start: real, end: real): (r: seq<Burst>)
    ensures forall i :: 0 <= i < |r| ==> r[i] in bs && r[i].treeId != treeId && start < r[i].end && r[i].start < end
  {
    if bs == [] then [] else
      var rest, b := Considered(bs[..|bs| - 1], treeId, start, end), bs[|bs| - 1];
      if b.treeId != treeId && start < b.end && b.start < end then rest + [b] else rest
  }

  lemma ConsideredSnoc(bs: seq<Burst>, b: Burst, treeId: int, start: real, end: real)
    ensures Considered(bs + [b], treeId, start, end) ==
      if b.treeId != treeId && start < b.end && b.start < end then Considered(bs, treeId, start, end) + [b] else Considered(bs, treeId, start, end)
  {
    assert (bs + [b])[..|bs|] == bs;
  }

  lemma {:induction false} ConsideredSorted(bs: seq<Burst>, treeId: int, start: real, end: real, width: nat)
    requires AllWellFormed(bs, width) && ByStart(bs)
    ensures AllWellFormed(Considered(bs, treeId, start, end), width) && ByStart(Considered(bs, treeId, start, end))
  {
    if bs != [] {
      var rest := Considered(bs[..|bs| - 1], treeId, start, end);
      ConsideredSorted(bs[..|bs| - 1], treeId, start, end, width);
      forall i | 0 <= i < |rest|
        ensures rest[i].start <= bs[|bs| - 1].start
      {
        assert rest[i] in bs[..|bs| - 1];
      }
    }
  }

  /** Past the end of the interval nothing more is taken into account. */
  lemma {:induction false} ConsideredStops(bs: seq<Burst>, n: nat, treeId: int, start: real, end: real)
    requires n <= |bs| && forall i :: n <= i < |bs| ==> bs[i].start >= end
    ensures Considered(bs, treeId, start, end) == Considered(bs[..n], treeId, start, end)
    decreases |bs|
  {
    if n < |bs| {
      ConsideredStops(bs[..|bs| - 1], n, treeId, start, end);
      assert bs[..|bs| - 1][..n] == bs[..n];
    } else {
      assert bs[..n] == bs;
    }
  }

  /** Every transmission but the one of interest. */
  function Others(bs: seq<Burst>, treeId: int): seq<Burst> {
    if bs == [] then [] else
      var rest, b := Others(bs[..|bs| - 1], treeId), bs[|bs| - 1];
      if b.treeId != treeId then rest + [b] else rest
  }

  /** Within the interval, what is not taken into account is not on the air. */
  lemma {:induction false} ConsideredSuffices(bs: seq<Burst>, treeId: int, start: real, end: real, t: real, f: nat)
    requires start <= t < end
    ensures PowerAt(Considered(bs, treeId, start, end), t, f) == PowerAt(Others(bs, treeId), t, f)
  {
    hide PowerAt;
    if bs != [] {
      var init, b := bs[..|bs| - 1], bs[|bs| - 1];
      ConsideredSuffices(init, treeId, start, end, t, f);
      PowerAtSnoc(Considered(init, treeId, start, end), b, t, f);
      PowerAtSnoc(Others(init, treeId), b, t, f);
    }
  }

  function PositionByStart(bs: seq<Burst>, start: real): (k: nat)
    ensures k <= |bs|
    ensures forall i :: 0 <= i < k ==> bs[i].start <= start
    ensures k < |bs| ==> start < bs[k].start
  {
    if bs == [] || start < bs[0].start then 0 else 1 + PositionByStart(bs[1..], start)
  }

  /** The stable sort by reception start. */
  function Sort(bs: seq<Burst>): seq<Burst> {
    if bs == [] then [] else
      var rest, b := Sort(bs[..|bs| - 1]), bs[|bs| - 1];
      var k := PositionByStart(rest, b.start);
      rest[..k] + [b] + rest[k..]
  }

  lemma {:induction false} SortSorts(bs: seq<Burst>)
    ensures ByStart(Sort(bs)) && multiset(Sort(bs)) == multiset(bs)
  {
    if bs != [] {
      var init, b := bs[..|bs| - 1], bs[|bs| - 1];
      SortSorts(init);
      var rest := Sort(init);
      var k := PositionByStart(rest, b.start);
      InsertedByStart(rest, b, k);
      hide ByStart, PositionByStart;
      InsertedMembers(rest, b, k);
      assert bs == init + [b];
    }
  }

  lemma InsertedMembers(rest: seq<Burst>, b: Burst, k: nat)
    requires k <= |rest|
    ensures multiset(rest[..k] + [b] + rest[k..]) == multiset(rest) + multiset{b}
  {
    assert rest == rest[..k] + rest[k..];
  }

  lemma InsertedByStart(rest: seq<Burst>, b: Burst, k: nat)
    requires ByStart(rest) && k <= |rest|
    requires forall i :: 0 <= i < k ==> rest[i].start <= b.start
    requires k < |rest| ==> b.start < rest[k].start
    ensures ByStart(rest[..k] + [b] + rest[k..])
  {
    var r := rest[..k] + [b] + rest[k..];
    assert forall i :: 0 <= i < k ==> r[i] == rest[i];
    assert forall i :: k < i < |r| ==> r[i] == rest[i - 1];
  }

  /** Sorting does not change what is on the air when. */
  lemma {:induction false} SortKeepsPower(bs: seq<Burst>, treeId: int, t: real, f: nat)
    ensures PowerAt(Others(Sort(bs), treeId), t, f) == PowerAt(Others(bs, treeId), t, f)
  {
    hide PowerAt, Others, PositionByStart;
    if bs != [] {
      var init, b := bs[..|bs| - 1], bs[|bs| - 1];
      SortKeepsPower(init, treeId, t, f);
      var rest := Sort(init);
      var k := PositionByStart(rest, b.start);
      assert rest == rest[..k] + rest[k..];
      OthersInsert(rest[..k], b, rest[k..], treeId, t, f);
      assert bs == init + [b];
      PowerWithOne(init, b, treeId, t, f);
    }
  }

  lemma {:induction false} OthersInsert(a: seq<Burst>, b: Burst, c: seq<Burst>, treeId: int, t: real, f: nat)
    ensures PowerAt(Others(a + [b] + c, treeId), t, f) ==
      PowerAt(Others(a + c, treeId), t, f) + if b.treeId != treeId && b.Active(t) then b.Power(f) else 0.0
  {
    if c == [] {
      assert a + c == a && a + [b] + c == a + [b];
      PowerWithOne(a, b, treeId, t, f);
    } else {
      var n := |c| - 1;
      OthersInsert(a, b, c[..n], treeId, t, f);
      hide *;
      assert a + [b] + c == (a + [b] + c[..n]) + [c[n]] && a + c == (a + c[..n]) + [c[n]];
      PowerWithOne(a + [b] + c[..n], c[n], treeId, t, f);
      PowerWithOne(a + c[..n], c[n], treeId, t, f);
    }
  }

  lemma PowerWithOne(a: seq<Burst>, b: Burst, treeId: int, t: real, f: nat)
    ensures PowerAt(Others(a + [b], treeId), t, f) ==
      PowerAt(Others(a, treeId), t, f) + if b.treeId != treeId && b.Active(t) then b.Power(f) else 0.0
  {
    var r := a + [b];
    assert r[|r| - 1] == b && r[..|r| - 1] == a;
    PowerAtSnoc(Others(a, treeId), b, t, f);
  }

  function AddValues(u: Values, v: Values): Values
    requires |u| == |v|
  {
    seq(|u|, i requires 0 <= i < |u| => u[i] + v[i])
  }

  function SubtractValues(u: Values, v: Values): Values
    requires |u| == |v|
  {
    seq(|u|, i requires 0 <= i < |u| => u[i] - v[i])
  }

  /** `signalEndings.push(b)`: the queue holds the earliest end in front. */
  method PushByEnd(heap: seq<Burst>, b: Burst) returns (r: seq<Burst>, ghost k: nat)
    requires ByEnd(heap)
    ensures k <= |heap| && r == heap[..k] + [b] + heap[k..]
    ensures ByEnd(r)
  {
    var i := 0;
    while i < |heap| && heap[i].end <= b.end
      invariant i <= |heap|
      invariant forall j :: 0 <= j < i ==> heap[j].end <= b.end
    {
      i := i + 1;
    }
    r, k := heap[..i] + [b] + heap[i..], i;
    assert forall j :: 0 <= j < i ==> r[j] == heap[j];
    assert forall j :: i < j < |r| ==> r[j] == heap[j - 1];
  }

  /** What the queue holds has the same sum, from `now` on, as everything swept so far. */
  ghost predicate Equivalent(heap: seq<Burst>, swept: seq<Burst>, now: real) {
    forall t: real, f: nat :: now <= t ==> PowerAt(heap, t, f) == PowerAt(swept, t, f)
  }

  ghost predicate IsTotal(current: Values, heap: seq<Burst>, width: nat) {
    |current| == width && forall f :: 0 <= f < width ==> current[f] == Total(heap, f)
  }

  ghost predicate IsPeak(peak: Values, swept: seq<Burst>, width: nat) {
    |peak| == width && forall f :: 0 <= f < width ==> peak[f] == Peak(swept, f)
  }

  /** The running sum lacks the burst `b`, which is queued already. */
  ghost predicate IsTotalWithout(current: Values, heap: seq<Burst>, b: Burst, width: nat) {
    |current| == width && forall f :: 0 <= f < width ==> current[f] == Total(heap, f) - b.Power(f)
  }

  lemma Pushed(heap: seq<Burst>, swept: seq<Burst>, k: nat, b: Burst, now: real, now': real)
    requires Equivalent(heap, swept, now) && now <= now' && k <= |heap|
    ensures Equivalent(heap[..k] + [b] + heap[k..], swept + [b], now')
  {
    assert heap == heap[..k] + heap[k..];
    forall t: real, f: nat | now' <= t
      ensures PowerAt(heap[..k] + [b] + heap[k..], t, f) == PowerAt(swept + [b], t, f)
    {
      PowerAtInsert(heap[..k], b, heap[k..], t, f);
      PowerAtSnoc(swept, b, t, f);
    }
  }

  lemma PushedTotal(current: Values, heap: seq<Burst>, k: nat, b: Burst, width: nat)
    requires IsTotal(current, heap, width) && k <= |heap|
    ensures IsTotalWithout(current, heap[..k] + [b] + heap[k..], b, width)
  {
    assert heap == heap[..k] + heap[k..];
    forall f: nat | f < width
      ensures Total(heap[..k] + [b] + heap[k..], f) == Total(heap, f) + b.Power(f)
    {
      TotalInsert(heap[..k], b, heap[k..], f);
    }
  }

  lemma Popped(current: Values, heap: seq<Burst>, swept: seq<Burst>, b: Burst, now: real, width: nat)
    requires heap != [] && heap[0].end <= now && WellFormed(heap[0], width)
    requires Equivalent(heap, swept, now) && IsTotalWithout(current, heap, b, width)
    ensures Equivalent(heap[1..], swept, now)
    ensures IsTotalWithout(SubtractValues(current, heap[0].powers), heap[1..], b, width)
  {
    assert heap == [] + [heap[0]] + heap[1..] && [] + heap[1..] == heap[1..];
    forall t: real, f: nat | now <= t
      ensures PowerAt(heap[1..], t, f) == PowerAt(swept, t, f)
    {
      PowerAtInsert([], heap[0], heap[1..], t, f);
    }
    forall f: nat | f < width
      ensures Total(heap, f) == Total(heap[1..], f) + heap[0].Power(f)
    {
      TotalInsert([], heap[0], heap[1..], f);
    }
  }

  /** After the pops and the addition the running sum is that of the moment. */
  lemma SumOfTheMoment(current: Values, heap: seq<Burst>, swept: seq<Burst>, now: real, width: nat)
    requires IsTotal(current, heap, width) && Equivalent(heap, swept, now)
    requires forall i :: 0 <= i < |heap| ==> heap[i].Active(now)
    ensures forall f :: 0 <= f < width ==> current[f] == PowerAt(swept, now, f)
  {
    forall f: nat | f < width
      ensures current[f] == PowerAt(swept, now, f)
    {
      AllActive(heap, now, f);
    }
  }

  /** Updating the maximum where the burst carries data is enough: elsewhere it adds nothing. */
  lemma PeakUpdated(peak: Values, peak': Values, current: Values, swept: seq<Burst>, b: Burst, width: nat)
    requires IsPeak(peak, swept, width) && WellFormed(b, width) && |current| == width && |peak'| == width
    requires AllWellFormed(swept, width) && ByStart(swept)
    requires forall f :: 0 <= f < width ==> current[f] == PowerAt(swept + [b], b.start, f)
    requires forall f :: 0 <= f < width ==> peak'[f] == if b.dataStart <= f < b.dataEnd then Max(current[f], peak[f]) else peak[f]
    ensures IsPeak(peak', swept + [b], width)
  {
    forall f: nat | f < width
      ensures peak'[f] == Peak(swept + [b], f)
    {
      PeakSnoc(swept, b, f);
      PowerAtSnoc(swept, b, b.start, f);
      PeakBounds(swept, b.start, f, width);
    }
  }

  method UpdateMaximum(peak: Values, current: Values, from: nat, to: nat) returns (r: Values)
    requires |peak| == |current| && to <= |peak|
    ensures |r| == |peak|
    ensures forall f :: 0 <= f < |peak| ==> r[f] == if from <= f < to then Max(current[f], peak[f]) else peak[f]
  {
    r := peak;
    var i := from;
    while i < to
      invariant from <= i && if from <= to then i <= to else i == from
      invariant |r| == |peak|
      invariant forall f :: 0 <= f < |peak| ==> r[f] == if from <= f < i then Max(current[f], peak[f]) else peak[f]
    {
      r := r[i := Max(current[i], r[i])];
      i := i + 1;
    }
  }
}
