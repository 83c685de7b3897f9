/** Interference, signal-to-noise ratio and channel sensing over the air frames of a channel. */
module SignalUtils {
  import opened Wrappers
  import opened Interference
  import opened Signal

  /** What the sweep keeps up to date: the queued bursts, the running sum and the maximum so far. */
  ghost predicate Sweeping(heap: seq<Burst>, current: Values, peak: Values, swept: seq<Burst>, now: real, width: nat) {
    && ByEnd(heap) && AllWellFormed(heap, width) && (forall i :: 0 <= i < |heap| ==> heap[i].start <= now)
    && ByStart(swept) && AllWellFormed(swept, width) && (forall i :: 0 <= i < |swept| ==> swept[i].start <= now)
    && Equivalent(heap, swept, now)
    && IsTotal(current, heap, width)
    && IsPeak(peak, swept, width)
  }

  /** The same in the middle of a step, when `b` is queued and not yet part of the sum. */
  ghost predicate Popping(heap: seq<Burst>, current: Values, swept: seq<Burst>, b: Burst, width: nat) {
    && ByEnd(heap) && AllWellFormed(heap, width) && (forall i :: 0 <= i < |heap| ==> heap[i].start <= b.start)
    && b in heap
    && Equivalent(heap, swept + [b], b.start)
    && IsTotalWithout(current, heap, b, width)
  }

  lemma NothingSwept(zeros: Values, width: nat)
    requires |zeros| == width && forall f :: 0 <= f < width ==> zeros[f] == 0.0
    ensures Sweeping([], zeros, zeros, [], 0.0, width)
  {
  }

  lemma StartPopping(heap: seq<Burst>, current: Values, peak: Values, swept: seq<Burst>, now: real, b: Burst, k: nat, width: nat)
    requires Sweeping(heap, current, peak, swept, now, width) && WellFormed(b, width) && now <= b.start && k <= |heap|
    requires ByEnd(heap[..k] + [b] + heap[k..])
    ensures Popping(heap[..k] + [b] + heap[k..], current, swept, b, width)
  {
    hide PowerAt, Total, Peak, WellFormed, Equivalent, IsTotal, IsTotalWithout, IsPeak;
    Pushed(heap, swept, k, b, now, b.start);
    PushedTotal(current, heap, k, b, width);
    var r := heap[..k] + [b] + heap[k..];
    assert r[k] == b;
    assert forall j :: 0 <= j < k ==> r[j] == heap[j];
    assert forall j :: k < j < |r| ==> r[j] == heap[j - 1];
  }

  lemma KeepPopping(heap: seq<Burst>, current: Values, swept: seq<Burst>, b: Burst, width: nat)
    requires Popping(heap, current, swept, b, width) && heap[0].end <= b.start && WellFormed(b, width)
    ensures |current| == |heap[0].powers|
    ensures Popping(heap[1..], SubtractValues(current, heap[0].powers), swept, b, width)
  {
    hide PowerAt, Total, Peak, Equivalent;
    Popped(current, heap, swept + [b], b, b.start, width);
  }

  /** With `b` queued and still on the air, the queue is not empty when its front is read. */
  lemma NeverEmpty(heap: seq<Burst>, current: Values, swept: seq<Burst>, b: Burst, width: nat)
    requires Popping(heap, current, swept, b, width)
    ensures heap != [] && |current| == width
  {
  }

  lemma EndPopping(heap: seq<Burst>, current: Values, peak: Values, peak': Values, swept: seq<Burst>, b: Burst, now: real, width: nat)
    requires Popping(heap, current, swept, b, width) && WellFormed(b, width) && b.start < heap[0].end && now <= b.start
    requires ByStart(swept) && AllWellFormed(swept, width) && (forall i :: 0 <= i < |swept| ==> swept[i].start <= now)
    requires IsPeak(peak, swept, width)
    requires |peak'| == width && |AddValues(current, b.powers)| == width
    requires forall f :: 0 <= f < width ==> peak'[f] == if b.dataStart <= f < b.dataEnd then Max(AddValues(current, b.powers)[f], peak[f]) else peak[f]
    ensures Sweeping(heap, AddValues(current, b.powers), peak', swept + [b], b.start, width)
  {
    hide PowerAt, Total, Peak, Equivalent;
    var sum := AddValues(current, b.powers);
    assert IsTotal(sum, heap, width);
    SumOfTheMoment(sum, heap, swept + [b], b.start, width);
    PeakUpdated(peak, peak', sum, swept, b, width);
  }

  lemma SortedWellFormed(bs: seq<Burst>, width: nat)
    requires AllWellFormed(bs, width)
    ensures AllWellFormed(Sort(bs), width) && ByStart(Sort(bs))
  {
    SortSorts(bs);
    forall i | 0 <= i < |Sort(bs)|
      ensures WellFormed(Sort(bs)[i], width)
    {
      assert Sort(bs)[i] in multiset(Sort(bs));
      assert Sort(bs)[i] in multiset(bs);
    }
  }

  /** The state of the sweep after the first `i` frames of the sorted list. */
  ghost predicate SweptTo(i: nat, sorted: seq<Burst>, swept: seq<Burst>, treeId: int, start: real, end: real, now: real, width: nat) {
    && i <= |sorted|
    && AllWellFormed(sorted, width) && ByStart(sorted)
    && swept == Considered(sorted[..i], treeId, start, end)
    && forall j :: i <= j < |sorted| ==> now <= sorted[j].start
  }

  lemma SweptOne(i: nat, sorted: seq<Burst>, swept: seq<Burst>, treeId: int, start: real, end: real, now: real, width: nat)
    requires SweptTo(i, sorted, swept, treeId, start, end, now, width) && i < |sorted|
    ensures var b := sorted[i];
      && WellFormed(b, width) && now <= b.start
      && (b.treeId == treeId || b.end <= start || b.start > end ==> SweptTo(i + 1, sorted, swept, treeId, start, end, now, width))
      && (b.treeId != treeId && b.end > start && b.start < end ==> SweptTo(i + 1, sorted, swept + [b], treeId, start, end, b.start, width))
      && (b.start >= end ==> swept == Considered(sorted, treeId, start, end))
  {
    hide WellFormed;
    var b := sorted[i];
    assert sorted[..i + 1] == sorted[..i] + [b];
    ConsideredSnoc(sorted[..i], b, treeId, start, end);
    hide Considered;
    if b.start >= end {
      ConsideredStops(sorted, i, treeId, start, end);
    }
  }

  /**
   * The greatest power that other transmissions have at each frequency at any one time of the interval,
   * found by sweeping over their beginnings with a queue of their ends. The list is left sorted.
   */
  method GetMaxInterference(start: real, end: real, treeId: int, width: nat, interferers: seq<Burst>) returns (maxInterference: Values, sorted: seq<Burst>)
    requires AllWellFormed(interferers, width)
    ensures sorted == Sort(interferers) && |maxInterference| == width
    ensures IsPeak(maxInterference, Considered(sorted, treeId, start, end), width)
  {
    hide *;
    maxInterference := seq(width, _ => 0.0);
    var currentInterference := maxInterference;
    var signalEndings: seq<Burst> := [];
    var currentTime := 0.0;
    sorted := Sort(interferers);
    ghost var swept: seq<Burst> := [];
    NothingSwept(maxInterference, width);
    SweptNone(interferers, treeId, start, end, width);
    var i := 0;
    while i < |sorted|
      invariant SweptTo(i, sorted, swept, treeId, start, end, currentTime, width)
      invariant Sweeping(signalEndings, currentInterference, maxInterference, swept, currentTime, width)
    {
      var signal := sorted[i];
      SweptOne(i, sorted, swept, treeId, start, end, currentTime, width);
      Unpack(signalEndings, currentInterference, maxInterference, swept, currentTime, width);
      i := i + 1;
      if signal.treeId == treeId || signal.end <= start || signal.start > end {
        continue;
      }
      ghost var k;
      ghost var before, heap := currentTime, signalEndings;
      signalEndings, k := PushByEnd(signalEndings, signal);
      StartPopping(heap, currentInterference, maxInterference, swept, before, signal, k, width);
      currentTime := signal.start;
      if currentTime >= end {
        return;
      }
      NeverEmpty(signalEndings, currentInterference, swept, signal, width);
      while signalEndings[0].end <= currentTime
        invariant signalEndings != [] && |currentInterference| == width && currentTime == signal.start
        invariant Popping(signalEndings, currentInterference, swept, signal, width)
        decreases |signalEndings|
      {
        KeepPopping(signalEndings, currentInterference, swept, signal, width);
        currentInterference := SubtractValues(currentInterference, signalEndings[0].powers);
        signalEndings := signalEndings[1..];
        NeverEmpty(signalEndings, currentInterference, swept, signal, width);
      }
      ghost var peak := maxInterference;
      ghost var lacking := currentInterference;
      Widths(signal, currentInterference, width);
      currentInterference := AddValues(currentInterference, signal.powers);
      maxInterference := UpdateMaximum(maxInterference, currentInterference, signal.dataStart, signal.dataEnd);
      EndPopping(signalEndings, lacking, peak, maxInterference, swept, signal, before, width);
      swept := swept + [signal];
    }
    SweptAll(i, sorted, swept, treeId, start, end, currentTime, width);
    Unpack(signalEndings, currentInterference, maxInterference, swept, currentTime, width);
  }

  lemma SweptNone(bs: seq<Burst>, treeId: int, start: real, end: real, width: nat)
    requires AllWellFormed(bs, width)
    ensures SweptTo(0, Sort(bs), [], treeId, start, end, 0.0, width)
  {
    SortedWellFormed(bs, width);
  }

  lemma SweptAll(i: nat, sorted: seq<Burst>, swept: seq<Burst>, treeId: int, start: real, end: real, now: real, width: nat)
    requires SweptTo(i, sorted, swept, treeId, start, end, now, width) && i >= |sorted|
    ensures swept == Considered(sorted, treeId, start, end)
  {
    assert sorted[..i] == sorted;
  }

  lemma Unpack(heap: seq<Burst>, current: Values, peak: Values, swept: seq<Burst>, now: real, width: nat)
    requires Sweeping(heap, current, peak, swept, now, width)
    ensures ByEnd(heap) && |current| == |peak| == width && IsPeak(peak, swept, width)
    ensures ByStart(swept) && AllWellFormed(swept, width) && forall i :: 0 <= i < |swept| ==> swept[i].start <= now
  {
  }

  lemma Widths(b: Burst, current: Values, width: nat)
    requires WellFormed(b, width) && |current| == width
    ensures |b.powers| == width && b.dataEnd <= width && |AddValues(current, b.powers)| == width
  {
  }

  /** `values[f]` is the maximum, over the instants of the interval, of the power of the other transmissions. */
  ghost predicate IsMaximum(values: Values, bs: seq<Burst>, treeId: int, start: real, end: real, f: nat)
    requires f < |values|
  {
    && (forall t: real :: start <= t < end ==> PowerAt(Others(bs, treeId), t, f) <= values[f])
    && (exists t: real :: start <= t < end && PowerAt(Others(bs, treeId), t, f) == values[f])
  }

  lemma ConsideredIsOthers(bs: seq<Burst>, treeId: int, start: real, end: real, t: real, f: nat)
    requires start <= t < end
    ensures PowerAt(Considered(Sort(bs), treeId, start, end), t, f) == PowerAt(Others(bs, treeId), t, f)
  {
    ConsideredSuffices(Sort(bs), treeId, start, end, t, f);
    SortKeepsPower(bs, treeId, t, f);
  }

  /** The sweep finds, at every frequency, the maximum over continuous time of the sum of what is on the air. */
  lemma SweepFindsMaximum(values: Values, bs: seq<Burst>, treeId: int, start: real, end: real, width: nat)
    requires AllWellFormed(bs, width) && start < end
    requires IsPeak(values, Considered(Sort(bs), treeId, start, end), width)
    ensures forall f :: 0 <= f < width ==> IsMaximum(values, bs, treeId, start, end, f)
  {
    var w := Considered(Sort(bs), treeId, start, end);
    SortedWellFormed(bs, width);
    ConsideredSorted(Sort(bs), treeId, start, end, width);
    hide Considered, Sort, Others, WellFormed, PowerAt;
    forall f: nat | f < width
      ensures IsMaximum(values, bs, treeId, start, end, f)
    {
      forall t: real | start <= t < end
        ensures PowerAt(Others(bs, treeId), t, f) <= values[f]
      {
        ConsideredIsOthers(bs, treeId, start, end, t, f);
        PeakBounds(w, t, f, width);
      }
      var t := PeakReached(w, start, end, f, width);
      ConsideredIsOthers(bs, treeId, start, end, t, f);
      PeakBounds(w, t, f, width);
    }
  }

  datatype AirFrame = AirFrame(id: nat, treeId: int, signal: Signal)

  /** The frame's burst once all its models are applied. */
  ghost function FinalBurst(a: AirFrame): Burst
    requires a.signal.Valid()
    reads a.signal
  {
    var s := a.signal;
    Burst(a.treeId, s.receptionStart, s.receptionEnd, s.dataStart, s.dataEnd, s.Final())
  }

  ghost predicate AllValid(frames: seq<AirFrame>)
    reads set a | a in frames :: a.signal
  {
    forall i :: 0 <= i < |frames| ==> frames[i].signal.Valid()
  }

  ghost function FinalBursts(frames: seq<AirFrame>): (r: seq<Burst>)
    requires AllValid(frames)
    reads set a | a in frames :: a.signal
    ensures |r| == |frames| && forall i :: 0 <= i < |frames| ==> r[i] == FinalBurst(frames[i])
  {
    if frames == [] then [] else FinalBursts(frames[..|frames| - 1]) + [FinalBurst(frames[|frames| - 1])]
  }

  datatype Ratio = Infinity | Finite(value: real)

  function Sinr(signal: real, interference: real, noise: real): real {
    if interference + noise > 0.0 then signal / (interference + noise) else 0.0
  }

  /** `r` is the least ratio that signal `b` has at any data frequency and any instant of the interval. */
  ghost predicate IsMinimalSinr(r: Ratio, b: Burst, others: seq<Burst>, start: real, end: real, noise: real)
    requires b.dataEnd <= |b.powers|
  {
    if b.dataStart >= b.dataEnd then r == Infinity else
      && r.Finite?
      && (forall t: real, f :: start <= t < end && b.dataStart <= f < b.dataEnd ==> r.value <= Sinr(b.powers[f], PowerAt(others, t, f), noise))
      && (exists t: real, f :: start <= t < end && b.dataStart <= f < b.dataEnd && r.value == Sinr(b.powers[f], PowerAt(others, t, f), noise))
  }

  /**
   * What the first `n` frames put on frequency `f` at instant `t` once their models are applied: the powers of
   * those being received then, but for the transmission of interest.
   */
  ghost function InterferenceAt(frames: seq<AirFrame>, n: nat, treeId: int, t: real, f: nat): real
    requires n <= |frames|
    reads set a | a in frames :: a.signal
  {
    if n == 0 then 0.0 else
      var a := frames[n - 1];
      InterferenceAt(frames, n - 1, treeId, t, f) +
        if a.treeId != treeId && a.signal.receptionStart <= t < a.signal.receptionEnd && a.signal.Valid() && f < |a.signal.Final()|
        then a.signal.Final()[f] else 0.0
  }

  lemma {:induction false} PowerIsInterference(frames: seq<AirFrame>, n: nat, treeId: int, t: real, f: nat)
    requires n <= |frames| && AllValid(frames)
    ensures PowerAt(Others(FinalBursts(frames)[..n], treeId), t, f) == InterferenceAt(frames, n, treeId, t, f)
  {
    hide PowerAt, Applied, Others, InterferenceAt;
    var bs := FinalBursts(frames);
    if n == 0 {
      NoInterference(bs, frames, treeId, t, f);
    } else {
      PowerIsInterference(frames, n - 1, treeId, t, f);
      OthersMore(bs, n - 1, treeId, t, f);
      InterferenceMore(frames, n - 1, treeId, t, f);
    }
  }

  lemma NoInterference(bs: seq<Burst>, frames: seq<AirFrame>, treeId: int, t: real, f: nat)
    ensures PowerAt(Others(bs[..0], treeId), t, f) == 0.0 == InterferenceAt(frames, 0, treeId, t, f)
  {
  }

  lemma OthersMore(bs: seq<Burst>, n: nat, treeId: int, t: real, f: nat)
    requires n < |bs|
    ensures PowerAt(Others(bs[..n + 1], treeId), t, f) ==
      PowerAt(Others(bs[..n], treeId), t, f) + if bs[n].treeId != treeId && bs[n].Active(t) then bs[n].Power(f) else 0.0
  {
    assert bs[..n + 1][..n] == bs[..n] && bs[..n + 1][n] == bs[n];
    hide PowerAt;
    PowerAtSnoc(Others(bs[..n], treeId), bs[n], t, f);
  }

  lemma InterferenceMore(frames: seq<AirFrame>, n: nat, treeId: int, t: real, f: nat)
    requires n < |frames| && frames[n].signal.Valid()
    ensures var b := FinalBurst(frames[n]);
      InterferenceAt(frames, n + 1, treeId, t, f) ==
      InterferenceAt(frames, n, treeId, t, f) + if b.treeId != treeId && b.Active(t) then b.Power(f) else 0.0
  {
    hide Applied;
  }

  /**
   * `r` is the least ratio of the signal to interference and noise, over its data frequencies and the instants
   * of the interval: times interference and noise it nowhere exceeds the signal, and somewhere equals it.
   */
  ghost predicate LeastRatio(r: Ratio, signalFrame: AirFrame, frames: seq<AirFrame>, start: real, end: real, noise: real)
    requires signalFrame.signal.Valid() && signalFrame.signal.dataEnd <= |signalFrame.signal.Final()|
    reads signalFrame.signal, set a | a in frames :: a.signal
  {
    var s, n := signalFrame.signal, |frames|;
    if s.dataStart >= s.dataEnd then r == Infinity else
      && r.Finite?
      && (forall t: real, f :: start <= t < end && s.dataStart <= f < s.dataEnd ==>
            r.value * (InterferenceAt(frames, n, signalFrame.treeId, t, f) + noise) <= s.Final()[f])
      && (exists t: real, f :: start <= t < end && s.dataStart <= f < s.dataEnd &&
            r.value * (InterferenceAt(frames, n, signalFrame.treeId, t, f) + noise) == s.Final()[f])
  }

  lemma MinimalIsLeast(r: Ratio, signalFrame: AirFrame, frames: seq<AirFrame>, start: real, end: real, noise: real)
    requires signalFrame.signal.Valid() && AllValid(frames) && noise > 0.0
    requires WellFormed(FinalBurst(signalFrame), signalFrame.signal.width)
    requires AllWellFormed(FinalBursts(frames), signalFrame.signal.width)
    requires IsMinimalSinr(r, FinalBurst(signalFrame), Others(FinalBursts(frames), signalFrame.treeId), start, end, noise)
    ensures LeastRatio(r, signalFrame, frames, start, end, noise)
  {
    hide Applied, PowerAt, Others, Sinr, InterferenceAt, FinalBursts, IsMinimalSinr, AllWellFormed;
    var b, others := FinalBurst(signalFrame), Others(FinalBursts(frames), signalFrame.treeId);
    SameInterference(frames, signalFrame.treeId, signalFrame.signal.width);
    if b.dataStart < b.dataEnd {
      RatioTimes(r, b, others, start, end, noise);
    } else {
      NoRatio(r, b, others, start, end, noise);
    }
  }

  lemma SameInterference(frames: seq<AirFrame>, treeId: int, width: nat)
    requires AllValid(frames) && AllWellFormed(FinalBursts(frames), width)
    ensures forall t: real, f: nat ::
      PowerAt(Others(FinalBursts(frames), treeId), t, f) == InterferenceAt(frames, |frames|, treeId, t, f) >= 0.0
  {
    var bs := FinalBursts(frames);
    OthersWellFormed(bs, treeId, width);
    assert bs[..|frames|] == bs;
    hide Applied, PowerAt, Others, WellFormed, InterferenceAt, FinalBursts, AllWellFormed;
    forall t: real, f: nat
      ensures PowerAt(Others(bs, treeId), t, f) == InterferenceAt(frames, |frames|, treeId, t, f) >= 0.0
    {
      PowerIsInterference(frames, |frames|, treeId, t, f);
      PowerNonNegative(Others(bs, treeId), t, f, width);
    }
  }

  lemma NoRatio(r: Ratio, b: Burst, others: seq<Burst>, start: real, end: real, noise: real)
    requires b.dataEnd <= |b.powers| && IsMinimalSinr(r, b, others, start, end, noise) && b.dataStart >= b.dataEnd
    ensures r == Infinity
  {
  }

  lemma RatioTimes(r: Ratio, b: Burst, others: seq<Burst>, start: real, end: real, noise: real)
    requires b.dataEnd <= |b.powers| && IsMinimalSinr(r, b, others, start, end, noise) && b.dataStart < b.dataEnd && noise > 0.0
    requires forall t: real, f: nat :: PowerAt(others, t, f) >= 0.0
    ensures r.Finite?
    ensures forall t: real, f :: start <= t < end && b.dataStart <= f < b.dataEnd ==> r.value * (PowerAt(others, t, f) + noise) <= b.powers[f]
    ensures exists t: real, f :: start <= t < end && b.dataStart <= f < b.dataEnd && r.value * (PowerAt(others, t, f) + noise) == b.powers[f]
  {
    hide PowerAt, Sinr;
    forall t: real, f | start <= t < end && b.dataStart <= f < b.dataEnd
      ensures r.value * (PowerAt(others, t, f) + noise) <= b.powers[f]
    {
      SinrTimes(r.value, b.powers[f], PowerAt(others, t, f), noise);
    }
    var t: real, f :| start <= t < end && b.dataStart <= f < b.dataEnd && r.value == Sinr(b.powers[f], PowerAt(others, t, f), noise);
    SinrTimes(r.value, b.powers[f], PowerAt(others, t, f), noise);
  }

  lemma SinrTimes(v: real, signal: real, interference: real, noise: real)
    requires interference >= 0.0 && noise > 0.0
    ensures v <= Sinr(signal, interference, noise) ==> v * (interference + noise) <= signal
    ensures v == Sinr(signal, interference, noise) ==> v * (interference + noise) == signal
  {
    var q, d := Sinr(signal, interference, noise), interference + noise;
    assert q * d == signal;
    if v <= q {
      assert (q - v) * d >= 0.0;
    }
  }

  lemma MoreInterferenceLowersSinr(signal: real, less: real, more: real, noise: real)
    requires signal >= 0.0 && 0.0 <= less <= more && noise > 0.0
    ensures Sinr(signal, more, noise) <= Sinr(signal, less, noise)
  {
    var p, q := Sinr(signal, more, noise), Sinr(signal, less, noise);
    assert p * (more + noise) == signal == q * (less + noise);
    assert q * (less + noise) <= q * (more + noise);
    CancelFactor(p, q, more + noise);
  }

  lemma CancelFactor(p: real, q: real, c: real)
    requires c > 0.0 && p * c <= q * c
    ensures p <= q
  {
    assert (p - q) * c <= 0.0;
  }

  lemma {:induction false} PowerNonNegative(bs: seq<Burst>, t: real, f: nat, width: nat)
    requires AllWellFormed(bs, width)
    ensures PowerAt(bs, t, f) >= 0.0
  {
    if bs != [] {
      PowerNonNegative(bs[..|bs| - 1], t, f, width);
    }
  }

  lemma {:induction false} OthersWellFormed(bs: seq<Burst>, treeId: int, width: nat)
    requires AllWellFormed(bs, width)
    ensures AllWellFormed(Others(bs, treeId), width)
  {
    if bs != [] {
      OthersWellFormed(bs[..|bs| - 1], treeId, width);
    }
  }

  /** The least ratio against the maximal interference is the least ratio over frequencies and time. */
  lemma MinimumOverTime(r: Ratio, b: Burst, bs: seq<Burst>, interference: Values, start: real, end: real, noise: real, width: nat)
    requires AllWellFormed(bs, width) && WellFormed(b, width) && start < end && noise > 0.0 && |interference| == width
    requires forall f :: 0 <= f < width ==> IsMaximum(interference, bs, b.treeId, start, end, f)
    requires IsMinimum(r, b, interference, noise)
    ensures IsMinimalSinr(r, b, Others(bs, b.treeId), start, end, noise)
  {
    var others := Others(bs, b.treeId);
    OthersWellFormed(bs, b.treeId, width);
    hide WellFormed;
    if b.dataStart < b.dataEnd {
      forall t: real, f | start <= t < end && b.dataStart <= f < b.dataEnd
        ensures r.value <= Sinr(b.powers[f], PowerAt(others, t, f), noise)
      {
        assert IsMaximum(interference, bs, b.treeId, start, end, f);
        PowerNonNegative(others, t, f, width);
        MoreInterferenceLowersSinr(b.powers[f], PowerAt(others, t, f), interference[f], noise);
      }
      var f :| b.dataStart <= f < b.dataEnd && r.value == Sinr(b.powers[f], interference[f], noise);
      assert IsMaximum(interference, bs, b.treeId, start, end, f);
      var t: real :| start <= t < end && PowerAt(others, t, f) == interference[f];
    }
  }

  /** `r` is the least ratio over the data frequencies against the given interference. */
  ghost predicate IsMinimum(r: Ratio, b: Burst, interference: Values, noise: real)
    requires b.dataEnd <= |b.powers| && b.dataEnd <= |interference|
  {
    if b.dataStart >= b.dataEnd then r == Infinity else
      && r.Finite?
      && (forall f :: b.dataStart <= f < b.dataEnd ==> r.value <= Sinr(b.powers[f], interference[f], noise))
      && (exists f :: b.dataStart <= f < b.dataEnd && r.value == Sinr(b.powers[f], interference[f], noise))
  }

  ghost predicate AllApplied(frames: seq<AirFrame>)
    reads set a | a in frames :: a.signal
  {
    forall i :: 0 <= i < |frames| ==>
      frames[i].signal.Valid() && frames[i].signal.numAnalogueModelsApplied == |frames[i].signal.analogueModelList|
  }

  /** All models of every signal; what the powers are in the end was settled before. */
  method ApplyModels(frames: seq<AirFrame>)
    requires AllValid(frames)
    modifies set a | a in frames :: a.signal
    ensures AllValid(frames) && AllApplied(frames) && FinalBursts(frames) == old(FinalBursts(frames))
  {
    hide Applied;
    var i := 0;
    while i < |frames|
      invariant i <= |frames|
      invariant AllValid(frames) && AllApplied(frames[..i])
      invariant forall j :: 0 <= j < |frames| ==> FinalBurst(frames[j]) == old(FinalBurst(frames[j]))
    {
      frames[i].signal.ApplyAllAnalogueModels();
      i := i + 1;
    }
    assert frames[..i] == frames;
  }

  /** The signal may be among the others. */
  method ApplyAllModels(signalFrame: AirFrame, frames: seq<AirFrame>)
    requires signalFrame.signal.Valid() && AllValid(frames)
    modifies signalFrame.signal, set a | a in frames :: a.signal
    ensures signalFrame.signal.Valid() && AllApplied([signalFrame]) && FinalBurst(signalFrame) == old(FinalBurst(signalFrame))
    ensures AllValid(frames) && AllApplied(frames) && FinalBursts(frames) == old(FinalBursts(frames))
  {
    hide Applied;
    signalFrame.signal.ApplyAllAnalogueModels();
    assert AllValid(frames) && FinalBursts(frames) == old(FinalBursts(frames));
    label applied:
    ApplyModels(frames);
    forall j | 0 <= j < |frames| && frames[j].signal == signalFrame.signal
      ensures FinalBurst(signalFrame) == old@applied(FinalBurst(signalFrame))
    {
      assert FinalBurst(frames[j]) == old@applied(FinalBurst(frames[j]));
    }
  }

  /** Copies of the signals, as the sweep takes them. */
  method Copies(frames: seq<AirFrame>) returns (bs: seq<Burst>)
    requires AllValid(frames) && AllApplied(frames)
    ensures bs == FinalBursts(frames)
  {
    bs := [];
    var i := 0;
    while i < |frames|
      invariant i <= |frames|
      invariant |bs| == i && forall j :: 0 <= j < i ==> bs[j] == FinalBurst(frames[j])
    {
      var s := frames[i].signal;
      bs := bs + [Burst(frames[i].treeId, s.receptionStart, s.receptionEnd, s.dataStart, s.dataEnd, s.values)];
      i := i + 1;
    }
  }

  method MinimumOf(b: Burst, interference: Values, noise: real) returns (r: Ratio)
    requires b.dataEnd <= |b.powers| && b.dataEnd <= |interference|
    ensures IsMinimum(r, b, interference, noise)
  {
    r := Infinity;
    var i := b.dataStart;
    while i < b.dataEnd
      invariant b.dataStart <= i
      invariant i == b.dataStart ==> r == Infinity
      invariant i > b.dataStart ==> i <= b.dataEnd && r.Finite?
      invariant i > b.dataStart ==> forall f :: b.dataStart <= f < i ==> r.value <= Sinr(b.powers[f], interference[f], noise)
      invariant i > b.dataStart ==> exists f :: b.dataStart <= f < i && r.value == Sinr(b.powers[f], interference[f], noise)
    {
      var ratio := Sinr(b.powers[i], interference[i], noise);
      if r.Infinity? || ratio < r.value {
        r := Finite(ratio);
      }
      i := i + 1;
    }
  }

  /** The least signal-to-interference-and-noise ratio of the frame over the interval and its data frequencies. */
  method GetMinSINR(start: real, end: real, signalFrame: AirFrame, interfererFrames: seq<AirFrame>, noise: real) returns (minSinr: Ratio)
    requires signalFrame.signal.Valid() && AllValid(interfererFrames)
    requires signalFrame.signal.receptionStart <= start && end <= signalFrame.signal.receptionEnd
    requires noise > 0.0
    requires WellFormed(FinalBurst(signalFrame), signalFrame.signal.width)
    requires AllWellFormed(FinalBursts(interfererFrames), signalFrame.signal.width)
    modifies signalFrame.signal, set a | a in interfererFrames :: a.signal
    ensures signalFrame.signal.Valid() && AllApplied([signalFrame]) && AllApplied(interfererFrames)
    ensures FinalBurst(signalFrame) == old(FinalBurst(signalFrame))
    ensures FinalBursts(interfererFrames) == old(FinalBursts(interfererFrames))
    ensures start < end ==>
      IsMinimalSinr(minSinr, FinalBurst(signalFrame), Others(FinalBursts(interfererFrames), signalFrame.treeId), start, end, noise)
    ensures start < end ==> LeastRatio(minSinr, signalFrame, interfererFrames, start, end, noise)
  {
    hide PowerAt, LeastRatio, Peak, Others, IsMinimalSinr, IsMinimum, IsMaximum, IsPeak, Applied, Considered, Sort, AllApplied, FinalBursts;
    ApplyAllModels(signalFrame, interfererFrames);
    var signal := Copies([signalFrame]);
    var bursts := Copies(interfererFrames);
    var width := signalFrame.signal.width;
    var interference, sorted := GetMaxInterference(start, end, signalFrame.treeId, width, bursts);
    minSinr := MinimumOf(signal[0], interference, noise);
    if start < end {
      SweepFindsMaximum(interference, bursts, signalFrame.treeId, start, end, width);
      MinimumOverTime(minSinr, signal[0], bursts, interference, start, end, noise, width);
      MinimalIsLeast(minSinr, signalFrame, interfererFrames, start, end, noise);
    }
  }
}
