/** Is the channel idle? The summed power of what is on the air against a threshold, models applied lazily. */
module ChannelSensing {
  import opened Wrappers
  import opened Signal
  import opened SignalUtils

  ghost predicate Measurable(signals: seq<Signal>, f: nat)
    reads signals
  {
    forall i :: 0 <= i < |signals| ==> signals[i].Valid() && f < signals[i].width
  }

  function Sum(powers: seq<real>): real {
    if powers == [] then 0.0 else Sum(powers[..|powers| - 1]) + powers[|powers| - 1]
  }

  lemma {:induction false} SumMonotone(low: seq<real>, high: seq<real>)
    requires |low| == |high| && forall i :: 0 <= i < |low| ==> low[i] <= high[i]
    ensures Sum(low) <= Sum(high)
  {
    if low != [] {
      SumMonotone(low[..|low| - 1], high[..|high| - 1]);
    }
  }

  /** The powers as they stand. */
  ghost function Powers(signals: seq<Signal>, f: nat): (r: seq<real>)
    requires Measurable(signals, f)
    reads signals
    ensures |r| == |signals| && forall i :: 0 <= i < |signals| ==> r[i] == signals[i].values[f]
  {
    if signals == [] then [] else Powers(signals[..|signals| - 1], f) + [signals[|signals| - 1].values[f]]
  }

  ghost function FinalPower(s: Signal, f: nat): real
    requires s.Valid()
    reads s
  {
    if f < |s.Final()| then s.Final()[f] else 0.0
  }

  /** The powers after every model of every signal. */
  ghost function FinalPowers(signals: seq<Signal>, f: nat): (r: seq<real>)
    requires Measurable(signals, f)
    reads signals
    ensures |r| == |signals| && forall i :: 0 <= i < |signals| ==> r[i] == FinalPower(signals[i], f)
  {
    if signals == [] then [] else FinalPowers(signals[..|signals| - 1], f) + [FinalPower(signals[|signals| - 1], f)]
  }

  lemma FinalSumBelow(signals: seq<Signal>, f: nat)
    requires Measurable(signals, f) && AllAttenuating(signals)
    ensures Sum(FinalPowers(signals, f)) <= Sum(Powers(signals, f))
  {
    forall i | 0 <= i < |signals|
      ensures FinalPower(signals[i], f) <= signals[i].values[f]
    {
      signals[i].FinalBelow(f);
    }
    SumMonotone(FinalPowers(signals, f), Powers(signals, f));
  }

  lemma FinalSumReached(signals: seq<Signal>, f: nat)
    requires Measurable(signals, f)
    requires forall i :: 0 <= i < |signals| ==> signals[i].numAnalogueModelsApplied == |signals[i].analogueModelList|
    ensures Sum(FinalPowers(signals, f)) == Sum(Powers(signals, f))
  {
    assert FinalPowers(signals, f) == Powers(signals, f);
  }

  method PowerLevelSumAtFrequencyIndex(signals: seq<Signal>, f: nat) returns (r: real)
    requires Measurable(signals, f)
    ensures r == Sum(Powers(signals, f))
  {
    r := 0.0;
    var i := 0;
    while i < |signals|
      invariant i <= |signals|
      invariant r == Sum(Powers(signals, f)[..i])
    {
      assert Powers(signals, f)[..i + 1][..i] == Powers(signals, f)[..i];
      r := r + signals[i].values[f];
      i := i + 1;
    }
    assert Powers(signals, f)[..i] == Powers(signals, f);
  }

  /** The signals on the air at `now`, without the excluded frame's. */
  function Interferers(frames: seq<AirFrame>, now: real, exclude: Option<AirFrame>): (r: seq<Signal>)
    ensures forall s :: s in r ==> exists i :: 0 <= i < |frames| && frames[i].signal == s && Interferes(frames[i], now, exclude)
    ensures forall i :: 0 <= i < |frames| && Interferes(frames[i], now, exclude) ==> frames[i].signal in r
  {
    if frames == [] then [] else
      var rest, a := Interferers(frames[..|frames| - 1], now, exclude), frames[|frames| - 1];
      if Interferes(a, now, exclude) then rest + [a.signal] else rest
  }

  /** On the air at `now`, and not the excluded frame. */
  predicate Interferes(a: AirFrame, now: real, exclude: Option<AirFrame>) {
    a.signal.receptionStart <= now < a.signal.receptionEnd && exclude != Some(a)
  }

  /** The frames on the air and not excluded, by their places in the list, once each and in their order. */
  ghost predicate Places(at: seq<nat>, frames: seq<AirFrame>, now: real, exclude: Option<AirFrame>) {
    && (forall j, k :: 0 <= j < k < |at| ==> at[j] < at[k])
    && (forall j :: 0 <= j < |at| ==> at[j] < |frames|)
    && forall i: nat :: i < |frames| ==>
      (i in at <==> frames[i].signal.receptionStart <= now < frames[i].signal.receptionEnd && exclude != Some(frames[i]))
  }

  /** Every frame on the air and not excluded gives its signal once, in the order of the frames. */
  lemma {:induction false} InterferersPlaced(frames: seq<AirFrame>, now: real, exclude: Option<AirFrame>) returns (at: seq<nat>)
    ensures Places(at, frames, now, exclude)
    ensures var r := Interferers(frames, now, exclude);
      |r| == |at| && forall j :: 0 <= j < |r| ==> r[j] == frames[at[j]].signal
  {
    if frames == [] {
      at := [];
    } else {
      var n := |frames| - 1;
      var before := InterferersPlaced(frames[..n], now, exclude);
      at := before + if Interferes(frames[n], now, exclude) then [n] else [];
      PlacesMore(before, at, frames, now, exclude);
      hide Interferes, Places;
      var r := Interferers(frames, now, exclude);
      forall j | 0 <= j < |r|
        ensures r[j] == frames[at[j]].signal
      {
        if j < |before| {
          assert r[j] == Interferers(frames[..n], now, exclude)[j];
          assert frames[..n][before[j]] == frames[before[j]];
        }
      }
    }
  }

  lemma PlacesMore(before: seq<nat>, at: seq<nat>, frames: seq<AirFrame>, now: real, exclude: Option<AirFrame>)
    requires frames != [] && Places(before, frames[..|frames| - 1], now, exclude)
    requires at == before + if Interferes(frames[|frames| - 1], now, exclude) then [|frames| - 1] else []
    ensures Places(at, frames, now, exclude) && forall j :: 0 <= j < |before| ==> before[j] < |frames| - 1
  {
    var n := |frames| - 1;
    forall i: nat | i < |frames|
      ensures i in at <==> frames[i].signal.receptionStart <= now < frames[i].signal.receptionEnd && exclude != Some(frames[i])
    {
      if i < n {
        assert frames[..n][i] == frames[i];
        assert i in at <==> i in before;
      } else {
        assert i !in before;
      }
    }
  }

  /** The summed power at the frequency, as it stands, of the first `n` frames that are on the air and not excluded. */
  ghost function PowerOnAir(frames: seq<AirFrame>, n: nat, now: real, exclude: Option<AirFrame>, f: nat): real
    requires n <= |frames|
    reads set a | a in frames :: a.signal
  {
    if n == 0 then 0.0 else
      var a := frames[n - 1];
      PowerOnAir(frames, n - 1, now, exclude, f) +
        if a.signal.receptionStart <= now < a.signal.receptionEnd && exclude != Some(a) && f < |a.signal.values| then a.signal.values[f] else 0.0
  }

  /** The same after every model. */
  ghost function FinalPowerOnAir(frames: seq<AirFrame>, n: nat, now: real, exclude: Option<AirFrame>, f: nat): real
    requires n <= |frames|
    reads set a | a in frames :: a.signal
  {
    if n == 0 then 0.0 else
      var a := frames[n - 1];
      FinalPowerOnAir(frames, n - 1, now, exclude, f) +
        if a.signal.receptionStart <= now < a.signal.receptionEnd && exclude != Some(a) && a.signal.Valid() && f < |a.signal.Final()|
        then a.signal.Final()[f] else 0.0
  }

  lemma {:induction false} SumIsPowerOnAir(frames: seq<AirFrame>, n: nat, now: real, exclude: Option<AirFrame>, f: nat)
    requires n <= |frames| && Measurable(Interferers(frames[..n], now, exclude), f)
    ensures Sum(Powers(Interferers(frames[..n], now, exclude), f)) == PowerOnAir(frames, n, now, exclude, f)
    ensures Sum(FinalPowers(Interferers(frames[..n], now, exclude), f)) == FinalPowerOnAir(frames, n, now, exclude, f)
  {
    hide Sum, Powers, FinalPowers, Interferers, PowerOnAir, FinalPowerOnAir, FinalPower, Interferes, Measurable;
    if n == 0 {
      NoneOnAir(frames, now, exclude, f);
    } else {
      var a := frames[n - 1];
      var before := Interferers(frames[..n - 1], now, exclude);
      InterferersMore(frames, n - 1, now, exclude);
      if Interferes(a, now, exclude) {
        FirstMeasurable(before, a.signal, f);
        SumIsPowerOnAir(frames, n - 1, now, exclude, f);
        SumMore(before, a.signal, f);
        OneOnAir(frames, n, now, exclude, f);
      } else {
        assert before + [] == before;
        SumIsPowerOnAir(frames, n - 1, now, exclude, f);
        OneOnAir(frames, n, now, exclude, f);
      }
    }
  }

  lemma NoneOnAir(frames: seq<AirFrame>, now: real, exclude: Option<AirFrame>, f: nat)
    ensures Interferers(frames[..0], now, exclude) == [] && Measurable([], f)
    ensures Sum(Powers([], f)) == PowerOnAir(frames, 0, now, exclude, f)
    ensures Sum(FinalPowers([], f)) == FinalPowerOnAir(frames, 0, now, exclude, f)
  {
  }

  lemma FirstMeasurable(signals: seq<Signal>, s: Signal, f: nat)
    requires Measurable(signals + [s], f)
    ensures Measurable(signals, f) && s.Valid() && f < |s.values|
  {
    var all := signals + [s];
    assert forall i :: 0 <= i < |signals| ==> signals[i] == all[i];
    assert all[|signals|] == s;
  }

  lemma OneOnAir(frames: seq<AirFrame>, n: nat, now: real, exclude: Option<AirFrame>, f: nat)
    requires 0 < n <= |frames|
    requires Interferes(frames[n - 1], now, exclude) ==> frames[n - 1].signal.Valid() && f < |frames[n - 1].signal.values|
    ensures var a := frames[n - 1];
      && PowerOnAir(frames, n, now, exclude, f) ==
         PowerOnAir(frames, n - 1, now, exclude, f) + (if Interferes(a, now, exclude) then a.signal.values[f] else 0.0)
      && FinalPowerOnAir(frames, n, now, exclude, f) ==
         FinalPowerOnAir(frames, n - 1, now, exclude, f) + (if Interferes(a, now, exclude) then FinalPower(a.signal, f) else 0.0)
  {
  }

  lemma InterferersMore(frames: seq<AirFrame>, n: nat, now: real, exclude: Option<AirFrame>)
    requires n < |frames|
    ensures Interferers(frames[..n + 1], now, exclude) ==
      Interferers(frames[..n], now, exclude) + if Interferes(frames[n], now, exclude) then [frames[n].signal] else []
  {
    hide Interferes;
    var some := frames[..n + 1];
    assert some[..n] == frames[..n] && some[n] == frames[n];
  }

  lemma SumMore(signals: seq<Signal>, s: Signal, f: nat)
    requires Measurable(signals + [s], f) && Measurable(signals, f)
    ensures Sum(Powers(signals + [s], f)) == Sum(Powers(signals, f)) + s.values[f]
    ensures Sum(FinalPowers(signals + [s], f)) == Sum(FinalPowers(signals, f)) + FinalPower(s, f)
  {
    var all := signals + [s];
    assert all[..|signals|] == signals && all[|signals|] == s;
    hide FinalPower;
    assert Powers(all, f)[..|signals|] == Powers(signals, f);
    assert FinalPowers(all, f)[..|signals|] == FinalPowers(signals, f);
  }

  method CollectInterferers(frames: seq<AirFrame>, now: real, exclude: Option<AirFrame>) returns (r: seq<Signal>)
    ensures r == Interferers(frames, now, exclude)
    ensures exists at: seq<nat> :: Places(at, frames, now, exclude) && |r| == |at| && forall j :: 0 <= j < |r| ==> r[j] == frames[at[j]].signal
  {
    ghost var at := InterferersPlaced(frames, now, exclude);
    r := [];
    var i := 0;
    while i < |frames|
      invariant i <= |frames|
      invariant r == Interferers(frames[..i], now, exclude)
    {
      assert frames[..i + 1][..i] == frames[..i];
      var a := frames[i];
      if a.signal.receptionStart <= now && a.signal.receptionEnd > now && exclude != Some(a) {
        r := r + [a.signal];
      }
      i := i + 1;
    }
    assert frames[..i] == frames;
  }

  ghost predicate AllAttenuating(signals: seq<Signal>)
    reads signals
  {
    forall i :: 0 <= i < |signals| ==> signals[i].Attenuating()
  }

  /** How far each signal's models are applied, and its powers then. */
  ghost function Stages(signals: seq<Signal>): (r: seq<(nat, Values)>)
    reads signals
    ensures |r| == |signals| && forall i :: 0 <= i < |signals| ==> r[i] == (signals[i].numAnalogueModelsApplied, signals[i].values)
  {
    if signals == [] then [] else
      var s := signals[|signals| - 1];
      Stages(signals[..|signals| - 1]) + [(s.numAnalogueModelsApplied, s.values)]
  }

  /** Each signal has had the next models of its list since then, in order and once each. */
  ghost predicate AdvancedFrom(signals: seq<Signal>, stages: seq<(nat, Values)>)
    reads signals
  {
    |stages| == |signals| && forall i :: 0 <= i < |signals| ==> signals[i].AdvancedSince(stages[i].0, stages[i].1)
  }

  ghost predicate AppliedUpTo(signals: seq<Signal>, index: nat)
    reads signals
  {
    forall i :: 0 <= i < |signals| ==> index <= signals[i].numAnalogueModelsApplied
  }

  /** `powers` are those that the remaining models will leave at the frequency. */
  ghost predicate Foreseen(signals: seq<Signal>, stages: seq<(nat, Values)>, powers: seq<real>, f: nat) {
    && |stages| == |signals| == |powers|
    && forall i :: 0 <= i < |signals| ==>
      && stages[i].0 <= |signals[i].analogueModelList|
      && var v := Applied(signals[i].analogueModelList, stages[i].0, |signals[i].analogueModelList|, stages[i].1);
        powers[i] == if f < |v| then v[f] else 0.0
  }

  ghost predicate Damped(signals: seq<Signal>, stages: seq<(nat, Values)>) {
    && |stages| == |signals|
    && forall i :: 0 <= i < |signals| ==> NonNegative(stages[i].1) && forall m :: m in signals[i].analogueModelList ==> Attenuates(m)
  }

  lemma NotYet(signals: seq<Signal>, f: nat)
    requires Measurable(signals, f)
    ensures AdvancedFrom(signals, Stages(signals)) && AppliedUpTo(signals, 0)
    ensures Foreseen(signals, Stages(signals), FinalPowers(signals, f), f)
    ensures AllAttenuating(signals) ==> Damped(signals, Stages(signals))
  {
  }

  lemma ForeseenIsFinal(signals: seq<Signal>, f: nat, stages: seq<(nat, Values)>, powers: seq<real>)
    requires Measurable(signals, f) && AdvancedFrom(signals, stages) && Foreseen(signals, stages, powers, f)
    ensures FinalPowers(signals, f) == powers
  {
    forall i | 0 <= i < |signals|
      ensures FinalPower(signals[i], f) == powers[i]
    {
      signals[i].FinalSettled(stages[i].0, stages[i].1);
    }
  }

  lemma DampedAttenuates(signals: seq<Signal>, stages: seq<(nat, Values)>)
    requires AdvancedFrom(signals, stages) && Damped(signals, stages)
    ensures AllAttenuating(signals)
  {
    forall i | 0 <= i < |signals|
      ensures signals[i].Attenuating()
    {
      signals[i].StillAttenuating(stages[i].0, stages[i].1);
    }
  }

  /** Whether it stops early or at the end, the answer is that of the sum after all models. */
  lemma LazyAnswer(signals: seq<Signal>, f: nat, stages: seq<(nat, Values)>, powers: seq<real>, count: nat, threshold: real)
    requires Measurable(signals, f) && AdvancedFrom(signals, stages) && Foreseen(signals, stages, powers, f)
    requires Sum(Powers(signals, f)) < threshold || AppliedUpTo(signals, count)
    requires forall i :: 0 <= i < |signals| ==> |signals[i].analogueModelList| == count
    ensures Damped(signals, stages) ==> (Sum(Powers(signals, f)) < threshold <==> Sum(powers) < threshold)
  {
    ForeseenIsFinal(signals, f, stages, powers);
    if Damped(signals, stages) {
      DampedAttenuates(signals, stages);
      hide Sum;
      if Sum(Powers(signals, f)) < threshold {
        FinalSumBelow(signals, f);
      } else {
        FinalSumReached(signals, f);
      }
    }
  }

  /** Each signal gets the model at `index`, which is its next one unless it has been there already. */
  method ApplyToAll(signals: seq<Signal>, index: nat, ghost stages: seq<(nat, Values)>, ghost f: nat)
    requires Measurable(signals, f) && AdvancedFrom(signals, stages) && AppliedUpTo(signals, index)
    requires forall i :: 0 <= i < |signals| ==> index < |signals[i].analogueModelList|
    modifies signals
    ensures Measurable(signals, f) && AdvancedFrom(signals, stages) && AppliedUpTo(signals, index + 1)
  {
    hide Applied, KeepsWidth;
    var j := 0;
    while j < |signals|
      invariant j <= |signals|
      invariant AdvancedFrom(signals, stages) && AppliedUpTo(signals, index)
      invariant forall i :: 0 <= i < j ==> index + 1 <= signals[i].numAnalogueModelsApplied
    {
      signals[j].ApplyAnalogueModel(index);
      j := j + 1;
    }
  }

  /**
   * Is the summed power at the frequency below the threshold? Models are applied one after the other to all
   * signals on the air, and no further than needed for the answer.
   */
  method IsChannelPowerBelowThreshold(now: real, interfererFrames: seq<AirFrame>, freqIndex: nat, threshold: real, exclude: Option<AirFrame>) returns (r: bool)
    requires Measurable(Interferers(interfererFrames, now, exclude), freqIndex)
    requires forall s :: s in Interferers(interfererFrames, now, exclude) ==>
      |s.analogueModelList| == |interfererFrames[0].signal.analogueModelList|
    modifies Interferers(interfererFrames, now, exclude)
    ensures AdvancedFrom(Interferers(interfererFrames, now, exclude), old(Stages(Interferers(interfererFrames, now, exclude))))
    ensures Measurable(Interferers(interfererFrames, now, exclude), freqIndex)
    ensures r <==> interfererFrames == [] || Sum(Powers(Interferers(interfererFrames, now, exclude), freqIndex)) < threshold
    ensures !r ==> AppliedUpTo(Interferers(interfererFrames, now, exclude), |interfererFrames[0].signal.analogueModelList|)
    ensures old(AllAttenuating(Interferers(interfererFrames, now, exclude))) ==>
      (r <==> interfererFrames == [] || old(Sum(FinalPowers(Interferers(interfererFrames, now, exclude), freqIndex))) < threshold)
    ensures r <==> interfererFrames == [] || PowerOnAir(interfererFrames, |interfererFrames|, now, exclude, freqIndex) < threshold
    ensures old(AllAttenuating(Interferers(interfererFrames, now, exclude))) ==>
      (r <==> interfererFrames == [] || old(FinalPowerOnAir(interfererFrames, |interfererFrames|, now, exclude, freqIndex)) < threshold)
  {
    hide *;
    assert interfererFrames[..|interfererFrames|] == interfererFrames;
    SumIsPowerOnAir(interfererFrames, |interfererFrames|, now, exclude, freqIndex);
    ghost var on := Interferers(interfererFrames, now, exclude);
    ghost var stages := Stages(on);
    NotYet(on, freqIndex);
    if interfererFrames == [] {
      return true;
    }
    var interferers := CollectInterferers(interfererFrames, now, exclude);
    ghost var finally := FinalPowers(interferers, freqIndex);
    r := ApplyUntilBelow(interferers, freqIndex, threshold, |interfererFrames[0].signal.analogueModelList|, stages);
    LazyAnswer(interferers, freqIndex, stages, finally, |interfererFrames[0].signal.analogueModelList|, threshold);
    SumIsPowerOnAir(interfererFrames, |interfererFrames|, now, exclude, freqIndex);
  }

  /** The sum is compared before the first model and after each one. */
  method ApplyUntilBelow(signals: seq<Signal>, freqIndex: nat, threshold: real, analogueModelCount: nat, ghost stages: seq<(nat, Values)>) returns (r: bool)
    requires Measurable(signals, freqIndex) && AdvancedFrom(signals, stages) && AppliedUpTo(signals, 0)
    requires forall s :: s in signals ==> |s.analogueModelList| == analogueModelCount
    modifies signals
    ensures Measurable(signals, freqIndex) && AdvancedFrom(signals, stages)
    ensures r <==> Sum(Powers(signals, freqIndex)) < threshold
    ensures !r ==> AppliedUpTo(signals, analogueModelCount)
  {
    hide *;
    var sum := PowerLevelSumAtFrequencyIndex(signals, freqIndex);
    if sum < threshold {
      return true;
    }
    var analogueModelIndex := 0;
    while analogueModelIndex < analogueModelCount
      invariant analogueModelIndex <= analogueModelCount
      invariant AdvancedFrom(signals, stages) && AppliedUpTo(signals, analogueModelIndex)
      invariant Measurable(signals, freqIndex) && Sum(Powers(signals, freqIndex)) >= threshold
    {
      ApplyToAll(signals, analogueModelIndex, stages, freqIndex);
      sum := PowerLevelSumAtFrequencyIndex(signals, freqIndex);
      if sum < threshold {
        return true;
      }
      analogueModelIndex := analogueModelIndex + 1;
    }
    return false;
  }
}
