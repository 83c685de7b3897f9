/** The channel as the program keeps it: two maps of air frames by end time and the start of every frame. */
module ChannelInfo {
  import opened Wrappers
  import opened ChannelRetention
  import opened IntervalMatrix

  ghost function Elements(es: seq<Entry>): set<Entry> {
    set e | e in es
  }

  /** A step that finds a frame: what it skipped, the frame, and what is still ahead. */
  lemma FoundStep(passed: seq<Entry>, ahead: seq<Entry>, passed': seq<Entry>, ahead': seq<Entry>, from: int, to: int) returns (skipped: seq<Entry>)
    requires Stepped(passed, ahead, passed', ahead', true, from, to)
    ensures passed'[..|passed'| - 1] == passed + skipped
    ensures ahead == skipped + ([passed'[|passed'| - 1]] + ahead')
    ensures forall e :: e in skipped ==> !Meets(e, from, to)
  {
    var all, n := passed + ahead, |passed'| - 1;
    skipped := passed'[|passed|..n];
    assert all[..|passed'|] == passed' && all[|passed'|..] == ahead';
    assert all[..|passed|] == passed && all[|passed|..] == ahead;
    assert passed' == passed'[..n] + [passed'[n]];
  }

  /** A step that finds nothing. */
  lemma LastStep(passed: seq<Entry>, ahead: seq<Entry>, passed': seq<Entry>, from: int, to: int)
    requires Stepped(passed, ahead, passed', [], false, from, to)
    ensures passed' == passed + ahead
    ensures forall e :: e in ahead ==> !Meets(e, from, to)
  {
    assert passed' == passed' + [];
    forall k | 0 <= k < |ahead|
      ensures !Meets(ahead[k], from, to)
    {
      assert passed'[|passed| + k] == ahead[k];
    }
  }

  lemma KeepCons(x: Entry, es: seq<Entry>, p: Entry -> bool)
    ensures Keep([x] + es, p) == (if p(x) then [x] else []) + Keep(es, p)
  {
    assert ([x] + es)[1..] == es;
  }

  lemma {:induction false} KeepNone(es: seq<Entry>, p: Entry -> bool)
    requires forall e :: e in es ==> !p(e)
    ensures Keep(es, p) == []
  {
    if es != [] {
      assert es[0] in es;
      KeepNone(es[1..], p);
    }
  }

  /** The cleaning walk: what it has passed, with what it will keep of the rest, is what is to be kept. */
  lemma CleaningStep(passed: seq<Entry>, ahead: seq<Entry>, passed': seq<Entry>, ahead': seq<Entry>, from: int, to: int, keep: Entry -> bool)
    requires Stepped(passed, ahead, passed', ahead', true, from, to)
    requires forall e :: !Meets(e, from, to) ==> keep(e)
    ensures var n := |passed'| - 1;
      passed + Keep(ahead, keep) == (if keep(passed'[n]) then passed' else passed'[..n]) + Keep(ahead', keep)
    ensures passed' + ahead' == passed + ahead && |ahead'| < |ahead|
  {
    hide *;
    StepShortens(passed, ahead, passed', ahead', true, from, to);
    var n := |passed'| - 1;
    var skipped := FoundStep(passed, ahead, passed', ahead', from, to);
    var x, rest := passed'[n], Keep(ahead', keep);
    var kept := if keep(x) then [x] else [];
    KeepAll(skipped, keep);
    KeepConcat(skipped, [x] + ahead', keep);
    KeepCons(x, ahead', keep);
    Regroup(passed, skipped, kept, rest);
    assert passed'[..n] + kept == if keep(x) then passed' else passed'[..n];
  }

  lemma Regroup(a: seq<Entry>, b: seq<Entry>, c: seq<Entry>, d: seq<Entry>)
    ensures a + (b + (c + d)) == ((a + b) + c) + d
  {
  }

  lemma CleaningEnd(passed: seq<Entry>, ahead: seq<Entry>, passed': seq<Entry>, from: int, to: int, keep: Entry -> bool)
    requires Stepped(passed, ahead, passed', [], false, from, to)
    requires forall e :: !Meets(e, from, to) ==> keep(e)
    ensures passed + Keep(ahead, keep) == passed' == passed + ahead
  {
    LastStep(passed, ahead, passed', from, to);
    KeepAll(ahead, keep);
  }

  lemma MeetingStep(passed: seq<Entry>, ahead: seq<Entry>, passed': seq<Entry>, ahead': seq<Entry>, from: int, to: int, met: Entry -> bool)
    requires Stepped(passed, ahead, passed', ahead', true, from, to) && Meets(passed'[|passed'| - 1], from, to)
    requires forall e :: met(e) <==> Meets(e, from, to)
    ensures Keep(ahead, met) == [passed'[|passed'| - 1]] + Keep(ahead', met)
  {
    var x := passed'[|passed'| - 1];
    var skipped := FoundStep(passed, ahead, passed', ahead', from, to);
    hide Stepped, Keep;
    KeepNone(skipped, met);
    KeepConcat(skipped, [x] + ahead', met);
    KeepCons(x, ahead', met);
  }

  lemma MeetingEnd(passed: seq<Entry>, ahead: seq<Entry>, passed': seq<Entry>, from: int, to: int, met: Entry -> bool)
    requires Stepped(passed, ahead, passed', [], false, from, to)
    requires forall e :: met(e) <==> Meets(e, from, to)
    ensures Keep(ahead, met) == []
  {
    LastStep(passed, ahead, passed', from, to);
    KeepNone(ahead, met);
  }

  /** `isIntersecting`: the first step of the walk decides. */
  method AnyIntersection(airFrames: IntervalMap, from: int, to: int) returns (r: bool)
    requires airFrames.Valid()
    ensures r == IsIntersecting(Elements(Flat(airFrames.buckets)), from, to)
  {
    hide *;
    var it := new IntersectionIterator(airFrames, from, to);
    ghost var passed, ahead := it.Passed(), it.Ahead();
    var intersect := it.Next();
    r := intersect.Some?;
    if r {
      FoundOne(passed, ahead, it.Passed(), it.Ahead(), from, to);
    } else {
      FoundNone(passed, ahead, it.Passed(), from, to);
    }
  }

  lemma FoundOne(passed: seq<Entry>, ahead: seq<Entry>, passed': seq<Entry>, ahead': seq<Entry>, from: int, to: int)
    requires Stepped(passed, ahead, passed', ahead', true, from, to)
    requires |passed'| > 0 && Meets(passed'[|passed'| - 1], from, to)
    ensures IsIntersecting(Elements(passed + ahead), from, to)
  {
    hide Meets;
    var e := passed'[|passed'| - 1];
    assert e in passed' + ahead';
    assert e in Elements(passed + ahead);
  }

  lemma FoundNone(passed: seq<Entry>, ahead: seq<Entry>, passed': seq<Entry>, from: int, to: int)
    requires Stepped(passed, ahead, passed', [], false, from, to) && forall e :: e in passed ==> !Meets(e, from, to)
    ensures !IsIntersecting(Elements(passed + ahead), from, to)
  {
    hide Meets;
    var all := passed + ahead;
    assert passed' == passed' + [] == all;
    forall k | 0 <= k < |all|
      ensures !Meets(all[k], from, to)
    {
      assert k < |passed| ==> all[k] == passed[k];
    }
  }

  /** `getIntersections`: every frame of the map meeting the interval, once each, in the order of the map. */
  method GetIntersections(airFrames: IntervalMap, from: int, to: int) returns (out: seq<AirFrame>)
    requires airFrames.Valid()
    ensures FramesOf(Keep(Flat(airFrames.buckets), e => Meets(e, from, to)), out)
  {
    hide *;
    ghost var met := e => Meets(e, from, to);
    ghost var all := Flat(airFrames.buckets);
    ghost var es: seq<Entry> := [];
    out := [];
    var it := new IntersectionIterator(airFrames, from, to);
    ghost var passed, ahead := it.Passed(), it.Ahead();
    KeepConcat(passed, ahead, met);
    KeepNone(passed, met);
    var intersect := it.Next();
    NoFrames();
    if intersect.Some? {
      MeetingStep(passed, ahead, it.Passed(), it.Ahead(), from, to, met);
    } else {
      MeetingEnd(passed, ahead, it.Passed(), from, to, met);
    }
    while intersect.Some?
      invariant it.Valid() && it.intervals == airFrames && it.from == from && it.to == to && fresh(it)
      invariant FramesOf(es, out)
      invariant intersect.None? ==> Keep(all, met) == es
      invariant intersect.Some? ==> it.OnEntry() && intersect.value == it.Current().frame
      invariant intersect.Some? ==> Keep(all, met) == es + ([it.Current()] + Keep(it.Ahead(), met))
      decreases if intersect.Some? then 1 + |it.Ahead()| else 0
    {
      OneMoreFrame(es, out, it.Current());
      es := es + [it.Current()];
      out := out + [intersect.value];
      passed, ahead := it.Passed(), it.Ahead();
      intersect := it.Next();
      StepShortens(passed, ahead, it.Passed(), it.Ahead(), intersect.Some?, from, to);
      if intersect.Some? {
        MeetingStep(passed, ahead, it.Passed(), it.Ahead(), from, to, met);
      } else {
        MeetingEnd(passed, ahead, it.Passed(), from, to, met);
      }
    }
  }

  lemma NoFrames()
    ensures FramesOf([], [])
  {
  }

  lemma OneMoreFrame(es: seq<Entry>, out: seq<AirFrame>, x: Entry)
    requires FramesOf(es, out)
    ensures FramesOf(es + [x], out + [x.frame])
  {
  }

  lemma StepShortens(passed: seq<Entry>, ahead: seq<Entry>, passed': seq<Entry>, ahead': seq<Entry>, found: bool, from: int, to: int)
    requires Stepped(passed, ahead, passed', ahead', found, from, to)
    ensures found ==> |ahead'| < |ahead|
    ensures passed' + ahead' == passed + ahead
  {
    assert |passed + ahead| == |passed' + ahead'|;
  }

  ghost predicate FramesOf(es: seq<Entry>, out: seq<AirFrame>) {
    |out| == |es| && forall k :: 0 <= k < |out| ==> out[k] == es[k].frame
  }

  /** The cleaning is about to look for its next frame; `result` is what it will leave. */
  ghost predicate Ready(it: IntersectionIterator, keep: Entry -> bool, result: seq<Entry>)
    reads it, it.intervals
  {
    && it.Valid()
    && Flat(it.intervals.buckets) == it.Passed() + it.Ahead()
    && it.Passed() + Keep(it.Ahead(), keep) == result
  }

  /** The cleaning has found a frame and not yet dealt with it, or has come to its end. */
  ghost predicate AtFrame(it: IntersectionIterator, r: Option<AirFrame>, keep: Entry -> bool, result: seq<Entry>)
    reads it, it.intervals
  {
    if r.None? then Flat(it.intervals.buckets) == result else
      && it.Valid() && it.OnEntry() && r.value == it.Current().frame && Meets(it.Current(), it.from, it.to)
      && it.Passed() != [] && it.Passed()[|it.Passed()| - 1] == it.Current()
      && Flat(it.intervals.buckets) == it.Passed() + it.Ahead()
      && result == (if keep(it.Current()) then it.Passed() else it.Passed()[..|it.Passed()| - 1]) + Keep(it.Ahead(), keep)
  }

  method NextToClean(it: IntersectionIterator, ghost keep: Entry -> bool, ghost result: seq<Entry>) returns (r: Option<AirFrame>)
    requires it.Valid() && Ready(it, keep, result)
    requires forall e :: !Meets(e, it.from, it.to) ==> keep(e)
    modifies it
    ensures it.Valid() && AtFrame(it, r, keep, result)
    ensures r.Some? ==> |it.Ahead()| < old(|it.Ahead()|)
  {
    hide Flat, Before, After, Distinct, ValidMatrix, Placed, Keep, Stepped, Meets;
    ghost var passed, ahead := it.Passed(), it.Ahead();
    r := it.Next();
    if r.Some? {
      CleaningStep(passed, ahead, it.Passed(), it.Ahead(), it.from, it.to, keep);
    } else {
      CleaningEnd(passed, ahead, it.Passed(), it.from, it.to, keep);
    }
  }

  /** The start map holds exactly the frames of `es`, each with its start. */
  ghost predicate Indexed(starts: map<AirFrame, int>, es: set<Entry>) {
    && (forall e :: e in es ==> e.frame in starts && starts[e.frame] == e.start)
    && (forall f :: f in starts ==> Entry(starts[f], f) in es)
  }

  class ChannelInfo {
    const activeAirFrames: IntervalMap
    const inactiveAirFrames: IntervalMap
    var airFrameStarts: map<AirFrame, int>
    var earliestInfoPoint: int
    var recordStartTime: int

    ghost function Now(): Channel
      reads this, activeAirFrames, inactiveAirFrames
    {
      Channel(Elements(Flat(activeAirFrames.buckets)), Elements(Flat(inactiveAirFrames.buckets)), recordStartTime)
    }

    /** The three collections fit together; the frames of `moving` are on record but in neither map. */
    ghost predicate Consistent(moving: set<Entry>)
      reads this, activeAirFrames, inactiveAirFrames
    {
      && activeAirFrames != inactiveAirFrames
      && activeAirFrames.Valid()
      && inactiveAirFrames.Valid()
      && Now().active !! Now().inactive
      && moving !! Now().active + Now().inactive
      && Indexed(airFrameStarts, Now().active + Now().inactive + moving)
      && recordStartTime >= -1
    }

    ghost predicate Valid()
      reads this, activeAirFrames, inactiveAirFrames
    {
      Consistent({}) && NoIdle(Now())
    }

    constructor ()
      ensures Valid() && Now() == EMPTY && fresh(activeAirFrames) && fresh(inactiveAirFrames)
    {
      activeAirFrames := new IntervalMap();
      inactiveAirFrames := new IntervalMap();
      airFrameStarts := map[];
      earliestInfoPoint := -1;
      recordStartTime := -1;
    }

    /** `isChannelEmpty`; what it asserts on the way holds. */
    method IsChannelEmpty() returns (r: bool)
      requires Valid()
      ensures r <==> airFrameStarts == map[]
      ensures r <==> Now().active + Now().inactive == {}
      ensures recordStartTime == -1 ==> (r <==> Now().active == {})
    {
      r := airFrameStarts == map[];
    }

    method AddAirFrame(frame: AirFrame, startTime: int)
      requires Valid() && frame !in airFrameStarts
      modifies this`airFrameStarts, this`earliestInfoPoint, activeAirFrames
      ensures Valid() && Now() == Add(old(Now()), Entry(startTime, frame))
      ensures earliestInfoPoint == if old(airFrameStarts) == map[] then startTime else old(earliestInfoPoint)
    {
      hide NoIdle, IsIntersecting, CanDiscard, Cleaned, Remove, Flat, Distinct, ValidMatrix;
      ghost var before := Now();
      StepKeepsNoIdle(before, Begin(Entry(startTime, frame)));
      var empty := IsChannelEmpty();
      if empty {
        earliestInfoPoint := startTime;
      }
      activeAirFrames.PushBack(Entry(startTime, frame));
      airFrameStarts := airFrameStarts[frame := startTime];
      assert Now() == Add(before, Entry(startTime, frame));
    }

    /** The frame leaves the air; `r` is the earliest start still on record, -1 when nothing is. */
    method RemoveAirFrame(frame: AirFrame) returns (r: int)
      requires Valid() && frame in airFrameStarts && Entry(airFrameStarts[frame], frame) in Now().active
      modifies this`airFrameStarts, this`earliestInfoPoint, activeAirFrames, inactiveAirFrames
      ensures Valid() && Now() == Remove(old(Now()), Entry(old(airFrameStarts[frame]), frame))
      ensures r == earliestInfoPoint
      ensures Now().active + Now().inactive == {} ==> r == -1
      ensures forall e :: e in Now().active + Now().inactive ==> r <= e.start
      ensures Now().active + Now().inactive != {} ==> exists e :: e in Now().active + Now().inactive && r == e.start
    {
      hide NoIdle, IsIntersecting, CanDiscard, Cleaned, Remove, Flat, Distinct, ValidMatrix, Indexed;
      var startTime := airFrameStarts[frame];
      ghost var before := Now();
      ghost var entry := Entry(startTime, frame);
      RemoveKeepsNoIdle(before, entry);
      IndexedApart(airFrameStarts, before, entry);
      activeAirFrames.Delete(Entry(startTime, frame));
      assert Now() == before.(active := before.active - {entry});
      AddToInactives(frame, startTime, startTime + frame.duration);
      RemoveSteps(before, entry);
      var empty := IsChannelEmpty();
      if empty {
        earliestInfoPoint := -1;
      } else {
        earliestInfoPoint := FindEarliestInfoPoint();
      }
      r := earliestInfoPoint;
    }

    method FindEarliestInfoPoint() returns (r: int)
      requires Consistent({}) && airFrameStarts != map[]
      ensures forall e :: e in Now().active + Now().inactive ==> r <= e.start
      ensures exists e :: e in Now().active + Now().inactive && r == e.start
    {
      var first :| first in airFrameStarts;
      r := airFrameStarts[first];
      ghost var at := first;
      var rest := airFrameStarts.Keys;
      while rest != {}
        invariant rest <= airFrameStarts.Keys
        invariant at in airFrameStarts && r == airFrameStarts[at]
        invariant forall f :: f in airFrameStarts && f !in rest ==> r <= airFrameStarts[f]
        decreases rest
      {
        var f :| f in rest;
        if airFrameStarts[f] < r {
          r, at := airFrameStarts[f], f;
        }
        rest := rest - {f};
      }
      assert Entry(airFrameStarts[at], at) in Now().active + Now().inactive;
    }

    method CanDiscardInterval(startTime: int, endTime: int) returns (r: bool)
      requires activeAirFrames.Valid()
      ensures r == CanDiscard(Now(), startTime, endTime)
    {
      r := recordStartTime > endTime || recordStartTime == -1;
      if r {
        var met := AnyIntersection(activeAirFrames, startTime, endTime);
        r := !met;
      }
    }

    /** Tells the channel to keep everything from now on. */
    method StartRecording(start: int)
      requires Valid() && start >= 0
      modifies this`airFrameStarts, this`recordStartTime, inactiveAirFrames
      ensures Valid() && Now() == ChannelRetention.StartRecording(old(Now()), start)
    {
      hide NoIdle, IsIntersecting, CanDiscard, Cleaned, Flat, Distinct, ValidMatrix, Indexed;
      StepKeepsNoIdle(Now(), StartRec(start));
      if recordStartTime > -1 {
        recordStartTime := start;
        CheckAndCleanInterval(0, recordStartTime, {});
      } else {
        recordStartTime := start;
      }
    }

    method StopRecording()
      requires Valid()
      modifies this`airFrameStarts, this`recordStartTime, inactiveAirFrames
      ensures Valid() && Now() == ChannelRetention.StopRecording(old(Now()))
    {
      hide NoIdle, IsIntersecting, CanDiscard, Cleaned, Flat, Distinct, ValidMatrix, Indexed;
      StepKeepsNoIdle(Now(), StopRec);
      ghost var before := Now();
      if recordStartTime > -1 {
        var since := recordStartTime;
        recordStartTime := -1;
        CheckAndCleanFrom(since);
        StopSteps(before, Now());
      }
    }

    method CheckAndCleanFrom(start: int)
      requires Consistent({})
      modifies this`airFrameStarts, inactiveAirFrames
      ensures Consistent({})
      ensures CleanedFrom(old(Now()), start, Now())
    {
      hide IsIntersecting, CanDiscard, Distinct, Indexed;
      ghost var before := Now();
      if inactiveAirFrames.buckets == [] {
        return;
      }
      var end := inactiveAirFrames.buckets[|inactiveAirFrames.buckets| - 1].end;
      forall e | e in before.inactive
        ensures e.start <= end
      {
        FlatEnds(inactiveAirFrames.buckets, e);
      }
      CheckAndCleanInterval(start, end, {});
    }

    /** Every frame on record that meets the interval, once each, the ones off the air first. */
    method GetAirFrames(from: int, to: int) returns (out: seq<AirFrame>)
      requires Valid()
      ensures forall f :: f in out <==> exists e :: e in Now().active + Now().inactive && e.frame == f && Meets(e, from, to)
      ensures forall i, j :: 0 <= i < j < |out| ==> out[i] != out[j]
    {
      ghost var met := e => Meets(e, from, to);
      var off := GetIntersections(inactiveAirFrames, from, to);
      var on := GetIntersections(activeAirFrames, from, to);
      out := off + on;
      JoinedFrames(airFrameStarts, Flat(inactiveAirFrames.buckets), Flat(activeAirFrames.buckets), off, on, from, to);
    }

    /** The frame that has left the air is kept or forgotten, after the ones it may have been the last to need. */
    method AddToInactives(frame: AirFrame, startTime: int, endTime: int)
      requires endTime == startTime + frame.duration && Consistent({Entry(startTime, frame)})
      modifies this`airFrameStarts, inactiveAirFrames
      ensures Consistent({})
      ensures Now() == var d := Cleaned(old(Now()), startTime, endTime);
        if CanDiscard(d, startTime, endTime) then d else d.(inactive := d.inactive + {Entry(startTime, frame)})
    {
      ghost var entry := Entry(startTime, frame);
      CheckAndCleanInterval(startTime, endTime, {entry});
      ghost var cleaned := Now();
      var discard := CanDiscardInterval(startTime, endTime);
      if !discard {
        inactiveAirFrames.PushBack(Entry(startTime, frame));
        assert Now().inactive == cleaned.inactive + {entry};
        assert Now().active + Now().inactive + {} == cleaned.active + cleaned.inactive + {entry};
      } else {
        airFrameStarts := airFrameStarts - {frame};
        assert Now() == cleaned;
      }
    }

    method CheckAndCleanInterval(startTime: int, endTime: int, ghost moving: set<Entry>)
      requires Consistent(moving)
      modifies this`airFrameStarts, inactiveAirFrames
      ensures Consistent(moving)
      ensures Now() == Cleaned(old(Now()), startTime, endTime)
    {
      hide *;
      ghost var before := Now();
      ghost var keep := e => !(Meets(e, startTime, endTime) && CanDiscard(before, e.start, e.End()));
      ghost var found := Flat(inactiveAirFrames.buckets);
      Opened(moving);
      var it := new IntersectionIterator(inactiveAirFrames, startTime, endTime);
      GetReady(it, keep, found);
      var inactiveIntersect := NextToClean(it, keep, Keep(found, keep));
      while inactiveIntersect.Some?
        invariant it.Valid() && it.intervals == inactiveAirFrames && it.from == startTime && it.to == endTime && fresh(it)
        invariant activeAirFrames.Valid() && inactiveAirFrames.Valid() && recordStartTime == before.recordStart
        invariant Elements(Flat(activeAirFrames.buckets)) == before.active
        invariant Midway(before, moving, airFrameStarts, Flat(inactiveAirFrames.buckets))
        invariant AtFrame(it, inactiveIntersect, keep, Keep(found, keep))
        decreases if inactiveIntersect.Some? then 1 + |it.Ahead()| else 0
      {
        CleanOne(it, inactiveIntersect.value, before, moving, keep, Keep(found, keep));
        inactiveIntersect := NextToClean(it, keep, Keep(found, keep));
      }
      AtEnd(it, keep, Keep(found, keep));
      Closed(before, moving, keep, found, startTime, endTime);
    }

    /** What the cleaning does with one frame it has found. */
    method CleanOne(it: IntersectionIterator, frame: AirFrame, ghost before: Channel, ghost moving: set<Entry>, ghost keep: Entry -> bool, ghost result: seq<Entry>)
      requires it.Valid() && it.intervals == inactiveAirFrames && AtFrame(it, Some(frame), keep, result)
      requires activeAirFrames != inactiveAirFrames && activeAirFrames.Valid() && inactiveAirFrames.Valid()
      requires recordStartTime == before.recordStart && Elements(Flat(activeAirFrames.buckets)) == before.active
      requires Midway(before, moving, airFrameStarts, Flat(inactiveAirFrames.buckets))
      requires forall e :: keep(e) <==> !(Meets(e, it.from, it.to) && CanDiscard(before, e.start, e.End()))
      modifies this`airFrameStarts, inactiveAirFrames, it
      ensures it.Valid() && inactiveAirFrames.Valid() && Ready(it, keep, result)
      ensures it.Ahead() == old(it.Ahead())
      ensures Midway(before, moving, airFrameStarts, Flat(inactiveAirFrames.buckets))
    {
      hide Flat, Before, After, Distinct, ValidMatrix, Placed, Keep, Meets, CanDiscard, Midway, Elements;
      ghost var passed, ahead, x := it.Passed(), it.Ahead(), it.Current();
      LookUp(before, moving, airFrameStarts, passed, ahead);
      var currentStart := airFrameStarts[frame];
      var currentEnd := currentStart + frame.duration;
      var discard := CanDiscardInterval(currentStart, currentEnd);
      SameVerdict(before, Now(), x.start, x.End());
      assert keep(x) == !discard;
      if discard {
        TakenOut(before, moving, airFrameStarts, passed, ahead);
        it.EraseAirFrame();
        airFrameStarts := airFrameStarts - {frame};
      }
    }

    lemma Opened(moving: set<Entry>)
      requires Consistent(moving)
      ensures activeAirFrames != inactiveAirFrames && activeAirFrames.Valid() && inactiveAirFrames.Valid()
      ensures Now() == Channel(Elements(Flat(activeAirFrames.buckets)), Elements(Flat(inactiveAirFrames.buckets)), recordStartTime)
      ensures Midway(Now(), moving, airFrameStarts, Flat(inactiveAirFrames.buckets))
    {
      assert Now().active + moving + Now().inactive == Now().active + Now().inactive + moving;
    }

    lemma Closed(before: Channel, moving: set<Entry>, keep: Entry -> bool, found: seq<Entry>, from: int, to: int)
      requires activeAirFrames != inactiveAirFrames && activeAirFrames.Valid() && inactiveAirFrames.Valid()
      requires recordStartTime == before.recordStart && Elements(Flat(activeAirFrames.buckets)) == before.active
      requires Elements(found) == before.inactive && Flat(inactiveAirFrames.buckets) == Keep(found, keep)
      requires forall e :: keep(e) <==> !(Meets(e, from, to) && CanDiscard(before, e.start, e.End()))
      requires Midway(before, moving, airFrameStarts, Flat(inactiveAirFrames.buckets))
      ensures Consistent(moving) && Now() == Cleaned(before, from, to)
    {
      hide IsIntersecting, Meets, CanDiscard, Flat;
      assert before.active + moving + Now().inactive == Now().active + Now().inactive + moving;
      assert Elements(Keep(found, keep)) == Cleaned(before, from, to).inactive;
    }
  }

  lemma GetReady(it: IntersectionIterator, keep: Entry -> bool, found: seq<Entry>)
    requires it.Valid() && found == Flat(it.intervals.buckets) == it.Passed() + it.Ahead()
    requires forall e :: e in it.Passed() ==> keep(e)
    ensures Ready(it, keep, Keep(found, keep))
  {
    hide Keep;
    KeepConcat(it.Passed(), it.Ahead(), keep);
    KeepAll(it.Passed(), keep);
  }

  lemma AtEnd(it: IntersectionIterator, keep: Entry -> bool, result: seq<Entry>)
    requires AtFrame(it, None, keep, result)
    ensures Flat(it.intervals.buckets) == result
  {
  }

  /** `d` is `c` after every inactive frame that ended no earlier than `start` was looked at again. */
  ghost predicate CleanedFrom(c: Channel, start: int, d: Channel) {
    && d.active == c.active && d.recordStart == c.recordStart
    && forall e :: e in d.inactive <==> e in c.inactive && !(start <= e.End() && CanDiscard(c, e.start, e.End()))
  }

  lemma StopSteps(c: Channel, d: Channel)
    requires c.recordStart > -1 && CleanedFrom(c.(recordStart := -1), c.recordStart, d)
    ensures d == StopRecording(c)
  {
  }

  lemma JoinedFrames(starts: map<AirFrame, int>, off: seq<Entry>, on: seq<Entry>, offFrames: seq<AirFrame>, onFrames: seq<AirFrame>, from: int, to: int)
    requires Distinct(off) && Distinct(on) && Elements(on) !! Elements(off) && Indexed(starts, Elements(on) + Elements(off) + {})
    requires FramesOf(Keep(off, e => Meets(e, from, to)), offFrames) && FramesOf(Keep(on, e => Meets(e, from, to)), onFrames)
    ensures forall f :: f in offFrames + onFrames <==> exists e :: e in Elements(on) + Elements(off) && e.frame == f && Meets(e, from, to)
    ensures forall i, j :: 0 <= i < j < |offFrames + onFrames| ==> (offFrames + onFrames)[i] != (offFrames + onFrames)[j]
  {
    hide *;
    var met := e => Meets(e, from, to);
    var a, b := Keep(off, met), Keep(on, met);
    KeepDistinct(off, met);
    KeepDistinct(on, met);
    KeptElements(off, on, met);
    KeptApart(starts, off, on, met);
    FramesMember(a, offFrames);
    FramesMember(b, onFrames);
    FramesApart(a, b, offFrames, onFrames);
    assert forall f :: f in offFrames + onFrames <==> f in offFrames || f in onFrames;
    forall f
      ensures f in offFrames + onFrames <==> exists e :: e in Elements(on) + Elements(off) && e.frame == f && Meets(e, from, to)
    {
      if f in offFrames {
        var e :| e in a && e.frame == f;
      }
      if f in onFrames {
        var e :| e in b && e.frame == f;
      }
    }
  }

  lemma KeptElements(off: seq<Entry>, on: seq<Entry>, met: Entry -> bool)
    ensures forall e :: e in Elements(on) + Elements(off) && met(e) <==> e in Keep(off, met) || e in Keep(on, met)
  {
  }

  lemma KeptApart(starts: map<AirFrame, int>, off: seq<Entry>, on: seq<Entry>, met: Entry -> bool)
    requires Elements(on) !! Elements(off) && Indexed(starts, Elements(on) + Elements(off) + {})
    ensures forall x, y :: x in Keep(off, met) && y in Keep(on, met) ==> x.frame != y.frame
  {
    forall x, y | x in Keep(off, met) && y in Keep(on, met)
      ensures x.frame != y.frame
    {
      assert x in Elements(off) && y in Elements(on);
    }
  }

  lemma FramesMember(es: seq<Entry>, out: seq<AirFrame>)
    requires FramesOf(es, out)
    ensures forall f :: f in out <==> exists e :: e in es && e.frame == f
  {
    forall f | f in out
      ensures exists e :: e in es && e.frame == f
    {
      var k :| 0 <= k < |out| && out[k] == f;
      assert es[k] in es;
    }
    forall e | e in es
      ensures e.frame in out
    {
      var k :| 0 <= k < |es| && es[k] == e;
      assert out[k] in out;
    }
  }

  lemma FramesApart(a: seq<Entry>, b: seq<Entry>, aFrames: seq<AirFrame>, bFrames: seq<AirFrame>)
    requires Distinct(a) && Distinct(b) && FramesOf(a, aFrames) && FramesOf(b, bFrames)
    requires forall x, y :: x in a && y in b ==> x.frame != y.frame
    ensures forall i, j :: 0 <= i < j < |aFrames + bFrames| ==> (aFrames + bFrames)[i] != (aFrames + bFrames)[j]
  {
    forall i, j | 0 <= i < |a| && 0 <= j < |b|
      ensures aFrames[i] != bFrames[j]
    {
      assert a[i] in a && b[j] in b;
    }
  }

  lemma RemoveSteps(c: Channel, e: Entry)
    ensures Remove(c, e) == var d := Cleaned(c.(active := c.active - {e}), e.start, e.End());
      if CanDiscard(d, e.start, e.End()) then d else d.(inactive := d.inactive + {e})
  {
  }

  lemma IndexedApart(starts: map<AirFrame, int>, c: Channel, e: Entry)
    requires e in c.active && Indexed(starts, c.active + c.inactive + {})
    ensures Indexed(starts, c.active - {e} + c.inactive + {e})
  {
    assert c.active + c.inactive + {} == c.active - {e} + c.inactive + {e};
  }

  /** In the middle of a cleaning: `es` is what is left of the inactive frames, and the starts agree with it. */
  ghost predicate Midway(before: Channel, moving: set<Entry>, starts: map<AirFrame, int>, es: seq<Entry>) {
    && before.active !! before.inactive
    && moving !! before.active + before.inactive
    && before.recordStart >= -1
    && Elements(es) <= before.inactive
    && Distinct(es)
    && Indexed(starts, before.active + moving + Elements(es))
  }

  lemma SameVerdict(c: Channel, d: Channel, from: int, to: int)
    requires c.active == d.active && c.recordStart == d.recordStart
    ensures CanDiscard(c, from, to) == CanDiscard(d, from, to)
  {
  }

  lemma LookUp(before: Channel, moving: set<Entry>, starts: map<AirFrame, int>, passed: seq<Entry>, ahead: seq<Entry>)
    requires passed != [] && Midway(before, moving, starts, passed + ahead)
    ensures var x := passed[|passed| - 1];
      x.frame in starts && starts[x.frame] == x.start && x.End() == x.start + x.frame.duration
  {
    assert (passed + ahead)[|passed| - 1] in Elements(passed + ahead);
  }

  lemma TakenOut(before: Channel, moving: set<Entry>, starts: map<AirFrame, int>, passed: seq<Entry>, ahead: seq<Entry>)
    requires passed != [] && Midway(before, moving, starts, passed + ahead)
    ensures var n := |passed| - 1;
      Midway(before, moving, starts - {passed[n].frame}, passed[..n] + ahead)
  {
    var n := |passed| - 1;
    assert passed + ahead == passed[..n] + ([passed[n]] + ahead);
    DistinctRemove(passed[..n], ahead, passed[n]);
    assert (passed + ahead)[n] in Elements(passed + ahead);
    hide Distinct;
    assert Elements(passed[..n] + ahead) == Elements(passed + ahead) - {passed[n]};
  }
}
