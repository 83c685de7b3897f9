/** A signal's power per frequency, and the channel models applied to it one by one and only when needed. */
module Signal {
  type Values = seq<real>

  /** What a channel model does to the powers of the signal it is asked to filter. */
  type Model = Values -> Values

  /** A model changes powers in place: as many come out as went in. */
  ghost predicate KeepsWidth(m: Model) {
    forall v: Values :: |m(v)| == |v|
  }

  ghost predicate NonNegative(v: Values) {
    forall f :: 0 <= f < |v| ==> v[f] >= 0.0
  }

  /** A model that never increases power. */
  ghost predicate Attenuates(m: Model) {
    forall v: Values, f :: NonNegative(v) && |m(v)| == |v| && 0 <= f < |v| ==> 0.0 <= m(v)[f] <= v[f]
  }

  /** The models from `from` up to `to`, in the order of the list, each applied once. */
  ghost function Applied(models: seq<Model>, from: nat, to: nat, v: Values): Values
    requires from <= to <= |models|
  {
    if from == to then v else models[to - 1](Applied(models, from, to - 1, v))
  }

  lemma {:induction false} AppliedWidth(models: seq<Model>, from: nat, to: nat, v: Values)
    requires from <= to <= |models| && forall m :: m in models ==> KeepsWidth(m)
    ensures |Applied(models, from, to, v)| == |v|
  {
    if from < to {
      AppliedWidth(models, from, to - 1, v);
      assert models[to - 1] in models;
    }
  }

  /** Applying models lazily in two bouts is applying them in one. */
  lemma {:induction false} AppliedTwice(models: seq<Model>, from: nat, mid: nat, to: nat, v: Values)
    requires from <= mid <= to <= |models|
    ensures Applied(models, mid, to, Applied(models, from, mid, v)) == Applied(models, from, to, v)
  {
    if mid < to {
      AppliedTwice(models, from, mid, to - 1, v);
    }
  }

  /** The first model of the list is the first to be applied, to the powers as they are; no model, no change. */
  lemma {:induction false} FirstModelFirst(models: seq<Model>, from: nat, to: nat, v: Values)
    requires from <= to <= |models|
    ensures from == to ==> Applied(models, from, to, v) == v
    ensures from < to ==> Applied(models, from, to, v) == Applied(models, from + 1, to, models[from](v))
  {
    if from + 1 < to {
      FirstModelFirst(models, from, to - 1, v);
    }
  }

  /** Attenuating models leave no power above what it was. */
  lemma {:induction false} AppliedAttenuates(models: seq<Model>, from: nat, to: nat, v: Values)
    requires from <= to <= |models| && NonNegative(v)
    requires forall m :: m in models ==> KeepsWidth(m) && Attenuates(m)
    ensures |Applied(models, from, to, v)| == |v| && NonNegative(Applied(models, from, to, v))
    ensures forall f :: 0 <= f < |v| ==> Applied(models, from, to, v)[f] <= v[f]
  {
    if from < to {
      AppliedAttenuates(models, from, to - 1, v);
      assert models[to - 1] in models;
    }
  }

  class Signal {
    const width: nat
    const dataStart: nat
    const dataEnd: nat
    const centerFrequencyIndex: nat
    const receptionStart: real
    const receptionEnd: real
    const analogueModelList: seq<Model>
    var values: Values
    var numAnalogueModelsApplied: nat

    ghost predicate Valid()
      reads this
    {
      && |values| == width
      && centerFrequencyIndex < width
      && numAnalogueModelsApplied <= |analogueModelList|
      && forall m :: m in analogueModelList ==> KeepsWidth(m)
    }

    /** What the powers are after every model. */
    ghost function Final(): Values
      requires Valid()
      reads this
    {
      Applied(analogueModelList, numAnalogueModelsApplied, |analogueModelList|, values)
    }

    /** No power is negative and every model attenuates. */
    ghost predicate Attenuating()
      reads this
    {
      NonNegative(values) && forall m :: m in analogueModelList ==> Attenuates(m)
    }

    /** From the given state the models up to this point were applied, in order and once each. */
    ghost predicate AdvancedSince(applied: nat, powers: Values)
      reads this
    {
      && Valid()
      && applied <= numAnalogueModelsApplied
      && values == Applied(analogueModelList, applied, numAnalogueModelsApplied, powers)
    }

    twostate predicate Advanced()
      reads this
    {
      old(Valid()) && AdvancedSince(old(numAnalogueModelsApplied), old(values))
    }

    /** Whatever was applied by whatever calls, the powers after every model stay the same. */
    lemma FinalSettled(applied: nat, powers: Values)
      requires AdvancedSince(applied, powers)
      ensures Final() == Applied(analogueModelList, applied, |analogueModelList|, powers)
    {
      AppliedTwice(analogueModelList, applied, numAnalogueModelsApplied, |analogueModelList|, powers);
    }

    lemma StillAttenuating(applied: nat, powers: Values)
      requires AdvancedSince(applied, powers) && NonNegative(powers) && forall m :: m in analogueModelList ==> Attenuates(m)
      ensures Attenuating()
    {
      AppliedAttenuates(analogueModelList, applied, numAnalogueModelsApplied, powers);
    }

    lemma FinalBelow(f: nat)
      requires Valid() && Attenuating() && f < width
      ensures |Final()| == width && 0.0 <= Final()[f] <= values[f]
    {
      AppliedAttenuates(analogueModelList, numAnalogueModelsApplied, |analogueModelList|, values);
    }

    /**
     * Applies the model at `index` unless it is applied already or there is none. The models applied stay
     * a prefix of the list as long as no call skips one.
     */
    method ApplyAnalogueModel(index: nat)
      requires Valid()
      modifies this
      ensures Valid()
      ensures index <= old(numAnalogueModelsApplied) ==> Advanced()
      ensures index <= old(numAnalogueModelsApplied) ==> forall a, v :: old(AdvancedSince(a, v)) ==> AdvancedSince(a, v)
      ensures var skip := index >= |analogueModelList| || index < old(numAnalogueModelsApplied);
        && numAnalogueModelsApplied == old(numAnalogueModelsApplied) + (if skip then 0 else 1)
        && values == if skip then old(values) else analogueModelList[index](old(values))
    {
      AppliedWidth(analogueModelList, numAnalogueModelsApplied, numAnalogueModelsApplied, values);
      if index >= |analogueModelList| || index < numAnalogueModelsApplied {
        return;
      }
      assert analogueModelList[index] in analogueModelList;
      values := analogueModelList[index](values);
      numAnalogueModelsApplied := numAnalogueModelsApplied + 1;
    }

    method ApplyAllAnalogueModels()
      requires Valid()
      modifies this
      ensures Advanced() && numAnalogueModelsApplied == |analogueModelList|
      ensures values == Final() == old(Final())
    {
      while numAnalogueModelsApplied < |analogueModelList|
        invariant Advanced()
        decreases |analogueModelList| - numAnalogueModelsApplied
      {
        assert analogueModelList[numAnalogueModelsApplied] in analogueModelList;
        values := analogueModelList[numAnalogueModelsApplied](values);
        numAnalogueModelsApplied := numAnalogueModelsApplied + 1;
      }
      FinalSettled(old(numAnalogueModelsApplied), old(values));
    }

    /**
     * Is the power at the center frequency below the threshold? Stops applying models as soon as it is;
     * with models that never increase power the answer is that of applying them all.
     */
    method SmallerAtCenterFrequency(threshold: real) returns (r: bool)
      requires Valid()
      modifies this
      ensures Advanced()
      ensures r == (values[centerFrequencyIndex] < threshold)
      ensures !r ==> numAnalogueModelsApplied == |analogueModelList|
      ensures old(Attenuating()) ==> |old(Final())| == width && (r <==> old(Final())[centerFrequencyIndex] < threshold)
    {
      if values[centerFrequencyIndex] < threshold {
        r := true;
      } else {
        r := false;
        while !r && numAnalogueModelsApplied < |analogueModelList|
          invariant Advanced()
          invariant r == (values[centerFrequencyIndex] < threshold)
          decreases |analogueModelList| - numAnalogueModelsApplied
        {
          assert analogueModelList[numAnalogueModelsApplied] in analogueModelList;
          values := analogueModelList[numAnalogueModelsApplied](values);
          numAnalogueModelsApplied := numAnalogueModelsApplied + 1;
          r := values[centerFrequencyIndex] < threshold;
        }
      }
      LazyAnswer(threshold);
    }

    /** Is the power at the center frequency at least the threshold, however many models are applied? */
    method GreaterAtCenterFrequency(threshold: real) returns (r: bool)
      requires Valid()
      modifies this
      ensures Advanced()
      ensures r == (values[centerFrequencyIndex] >= threshold)
      ensures r ==> numAnalogueModelsApplied == |analogueModelList|
      ensures old(Attenuating()) ==> |old(Final())| == width && (r <==> old(Final())[centerFrequencyIndex] >= threshold)
    {
      if values[centerFrequencyIndex] < threshold {
        r := false;
      } else {
        r := true;
        while r && numAnalogueModelsApplied < |analogueModelList|
          invariant Advanced()
          invariant r == (values[centerFrequencyIndex] >= threshold)
          decreases |analogueModelList| - numAnalogueModelsApplied
        {
          assert analogueModelList[numAnalogueModelsApplied] in analogueModelList;
          values := analogueModelList[numAnalogueModelsApplied](values);
          numAnalogueModelsApplied := numAnalogueModelsApplied + 1;
          r := values[centerFrequencyIndex] >= threshold;
        }
      }
      LazyAnswer(threshold);
    }

    /** Stopping early gives the answer of the whole list. */
    twostate lemma LazyAnswer(threshold: real)
      requires Advanced()
      requires values[centerFrequencyIndex] < threshold || numAnalogueModelsApplied == |analogueModelList|
      ensures old(Attenuating()) ==> |old(Final())| == width && (values[centerFrequencyIndex] < threshold <==> old(Final())[centerFrequencyIndex] < threshold)
    {
      if old(Attenuating()) {
        FinalSettled(old(numAnalogueModelsApplied), old(values));
        StillAttenuating(old(numAnalogueModelsApplied), old(values));
        FinalBelow(centerFrequencyIndex);
      }
    }
  }
}
