/** Which air frames the channel keeps: its operations on sets of frames, and what holds over whole runs. */
module ChannelRetention {
  import opened IntervalMatrix

  /** `recordStart` is -1 while nothing is recorded. */
  datatype Channel = Channel(active: set<Entry>, inactive: set<Entry>, recordStart: int)

  const EMPTY := Channel({}, {}, -1)

  predicate IsIntersecting(es: set<Entry>, from: int, to: int) {
    exists e :: e in es && Meets(e, from, to)
  }

  predicate CanDiscard(c: Channel, from: int, to: int) {
    (c.recordStart > to || c.recordStart == -1) && !IsIntersecting(c.active, from, to)
  }

  /** Every inactive frame meeting the interval is looked at again. */
  function Cleaned(c: Channel, from: int, to: int): Channel {
    c.(inactive := set e | e in c.inactive && !(Meets(e, from, to) && CanDiscard(c, e.start, e.End())))
  }

  function Add(c: Channel, e: Entry): Channel {
    c.(active := c.active + {e})
  }

  function Remove(c: Channel, e: Entry): Channel {
    var d := Cleaned(c.(active := c.active - {e}), e.start, e.End());
    if CanDiscard(d, e.start, e.End()) then d else d.(inactive := d.inactive + {e})
  }

  function StartRecording(c: Channel, at: int): Channel {
    if c.recordStart > -1 then Cleaned(c.(recordStart := at), 0, at) else c.(recordStart := at)
  }

  /** From the old start of recording to the last end of an inactive frame, which is all that ends no earlier. */
  function StopRecording(c: Channel): Channel {
    if c.recordStart > -1 then
      var d := c.(recordStart := -1);
      d.(inactive := set e | e in c.inactive && !(c.recordStart <= e.End() && CanDiscard(d, e.start, e.End())))
    else c
  }

  datatype Event = Begin(entry: Entry) | Finish(entry: Entry) | StartRec(at: int) | StopRec

  function Step(c: Channel, ev: Event): Channel {
    match ev
    case Begin(e) => Add(c, e)
    case Finish(e) => Remove(c, e)
    case StartRec(at) => StartRecording(c, at)
    case StopRec => StopRecording(c)
  }

  /**
   * The channel with what an observer remembers: the time of the last event, every frame ever added,
   * and which frames were on the channel when another one was removed.
   */
  datatype Trace = Trace(channel: Channel, now: int, added: set<Entry>, coexisted: set<(Entry, Entry)>)

  const START := Trace(EMPTY, 0, {}, {})

  ghost function Next(tr: Trace, ev: Event): Trace {
    var c := Step(tr.channel, ev);
    match ev
    case Begin(e) => Trace(c, e.start, tr.added + {e}, tr.coexisted)
    case Finish(e) => Trace(c, e.End(), tr.added, tr.coexisted + (set a | a in c.active :: (e, a)))
    case StartRec(at) => Trace(c, at, tr.added, tr.coexisted)
    case StopRec => tr.(channel := c)
  }

  /** What the operations assert: a new frame is a new object, only an active one ends, a record start is a time. */
  ghost predicate Legal(tr: Trace, ev: Event) {
    match ev
    case Begin(e) => forall x :: x in tr.added ==> x.frame != e.frame
    case Finish(e) => e in tr.channel.active
    case StartRec(at) => at >= 0
    case StopRec => true
  }

  /** What the operations assume: events come in the order of their times. */
  ghost predicate Timely(tr: Trace, ev: Event) {
    match ev
    case Begin(e) => tr.now <= e.start
    case Finish(e) => tr.now <= e.End()
    case StartRec(at) => tr.now <= at
    case StopRec => true
  }

  ghost function Run(tr: Trace, evs: seq<Event>): Trace
    decreases |evs|
  {
    if evs == [] then tr else Run(Next(tr, evs[0]), evs[1..])
  }

  ghost predicate LegalRun(tr: Trace, evs: seq<Event>)
    decreases |evs|
  {
    evs == [] || (Legal(tr, evs[0]) && LegalRun(Next(tr, evs[0]), evs[1..]))
  }

  ghost predicate TimelyRun(tr: Trace, evs: seq<Event>)
    decreases |evs|
  {
    evs == [] || (Timely(tr, evs[0]) && TimelyRun(Next(tr, evs[0]), evs[1..]))
  }

  /** A kept frame is still needed: it meets a frame on the air, or ended no earlier than the recording began. */
  ghost predicate NoIdle(c: Channel) {
    forall x :: x in c.inactive ==> IsIntersecting(c.active, x.start, x.End()) || -1 < c.recordStart <= x.End()
  }

  /** A removed frame that met a frame on the channel at its removal is kept while that one is on the air. */
  ghost predicate NeededKept(tr: Trace) {
    forall r, a :: (r, a) in tr.coexisted && a in tr.channel.active && Meets(r, a.start, a.End()) ==> r in tr.channel.inactive
  }

  /** Active and inactive frames are different ones, and were all added. */
  ghost predicate Partitioned(tr: Trace) {
    && tr.channel.active !! tr.channel.inactive
    && tr.channel.active + tr.channel.inactive <= tr.added
    && forall x, y :: x in tr.added && y in tr.added && x.frame == y.frame ==> x == y
  }

  /** A frame no longer on the air ended before now, and before any frame it did not coexist with began. */
  ghost predicate InOrder(tr: Trace) {
    && (forall r :: r in tr.added && r !in tr.channel.active ==> r.End() <= tr.now)
    && (forall r, a :: r in tr.added && r !in tr.channel.active && a in tr.channel.active ==> r.End() <= a.start || (r, a) in tr.coexisted)
    && (forall r, a :: (r, a) in tr.coexisted ==> r in tr.added && r !in tr.channel.active)
  }

  /** While recording, everything that ended after the start of the recording is kept. */
  ghost predicate Recorded(tr: Trace) {
    forall r :: r in tr.added && r !in tr.channel.active && -1 < tr.channel.recordStart < r.End() ==> r in tr.channel.inactive
  }

  /** Only frames that were added are remembered as having coexisted. */
  ghost predicate Remembered(tr: Trace) {
    && (forall r, a :: (r, a) in tr.coexisted ==> r in tr.added && a in tr.added)
    && tr.channel.active <= tr.added
  }

  ghost predicate Recording(c: Channel) {
    c.recordStart >= -1
  }

  lemma CleanedKeepsNoIdle(c: Channel, from: int, to: int)
    requires forall x :: x in c.inactive && !Meets(x, from, to) ==> IsIntersecting(c.active, x.start, x.End()) || -1 < c.recordStart <= x.End()
    requires Recording(c)
    ensures NoIdle(Cleaned(c, from, to))
  {
    hide IsIntersecting;
  }

  lemma RemoveKeepsNoIdle(c: Channel, e: Entry)
    requires NoIdle(c) && Recording(c)
    ensures NoIdle(Remove(c, e))
  {
    var b := c.(active := c.active - {e});
    forall x | x in b.inactive && !Meets(x, e.start, e.End())
      ensures IsIntersecting(b.active, x.start, x.End()) || -1 < b.recordStart <= x.End()
    {
      if IsIntersecting(c.active, x.start, x.End()) {
        var a :| a in c.active && Meets(a, x.start, x.End());
        assert a != e;
        assert a in b.active;
      }
    }
    CleanedKeepsNoIdle(b, e.start, e.End());
  }

  lemma StepKeepsNoIdle(c: Channel, ev: Event)
    requires NoIdle(c) && Recording(c) && (ev.StartRec? ==> ev.at >= 0)
    ensures NoIdle(Step(c, ev)) && Recording(Step(c, ev))
  {
    match ev
    case Begin(e) =>
      forall x | x in c.inactive && IsIntersecting(c.active, x.start, x.End())
        ensures IsIntersecting(Add(c, e).active, x.start, x.End())
      {
        var a :| a in c.active && Meets(a, x.start, x.End());
        assert a in Add(c, e).active;
      }
    case Finish(e) =>
      RemoveKeepsNoIdle(c, e);
    case StartRec(at) =>
      if c.recordStart > -1 {
        CleanedKeepsNoIdle(c.(recordStart := at), 0, at);
      }
    case StopRec =>
  }

  lemma StepKeepsPartition(tr: Trace, ev: Event)
    requires Partitioned(tr) && Legal(tr, ev)
    ensures Partitioned(Next(tr, ev))
  {
    hide CanDiscard;
  }

  /** A frame is dropped only when nothing on the air meets it. */
  lemma DroppedMeetsNone(c: Channel, ev: Event, r: Entry, a: Entry)
    requires r in c.inactive && a in c.active && Meets(r, a.start, a.End()) && ev != Finish(a)
    ensures r in Step(c, ev).inactive
  {
    assert Meets(a, r.start, r.End());
    if ev.Finish? {
      assert a in c.active - {ev.entry};
      assert r in Cleaned(c.(active := c.active - {ev.entry}), ev.entry.start, ev.entry.End()).inactive;
    }
  }

  /** The frame just removed is kept when a frame still on the air meets it. */
  lemma RemovedKept(c: Channel, e: Entry, a: Entry)
    requires a in c.active && a != e && Meets(e, a.start, a.End())
    ensures e in Remove(c, e).inactive
  {
    assert Meets(a, e.start, e.End());
    var d := Cleaned(c.(active := c.active - {e}), e.start, e.End());
    assert a in d.active;
  }

  lemma StepKeepsNeeded(tr: Trace, ev: Event)
    requires NeededKept(tr) && Remembered(tr) && Legal(tr, ev)
    ensures NeededKept(Next(tr, ev))
  {
    var tr' := Next(tr, ev);
    forall r, a | (r, a) in tr'.coexisted && a in tr'.channel.active && Meets(r, a.start, a.End())
      ensures r in tr'.channel.inactive
    {
      if (r, a) in tr.coexisted {
        if a in tr.channel.active {
          DroppedMeetsNone(tr.channel, ev, r, a);
        } else {
          assert false;
        }
      } else {
        RemovedKept(tr.channel, ev.entry, a);
      }
    }
  }

  lemma StepKeepsAdded(tr: Trace, ev: Event)
    requires Remembered(tr) && Legal(tr, ev)
    ensures Remembered(Next(tr, ev))
  {
    hide CanDiscard;
  }

  lemma StepKeepsOrder(tr: Trace, ev: Event)
    requires InOrder(tr) && Partitioned(tr) && Legal(tr, ev) && Timely(tr, ev)
    ensures InOrder(Next(tr, ev))
  {
    hide CanDiscard;
  }

  lemma StepKeepsRecorded(tr: Trace, ev: Event)
    requires Recorded(tr) && InOrder(tr) && Recording(tr.channel) && Legal(tr, ev) && Timely(tr, ev)
    ensures Recorded(Next(tr, ev))
  {
    hide IsIntersecting;
  }

  /** What holds after every legal run: nothing idle is kept, nothing needed is dropped. */
  ghost predicate Retains(tr: Trace) {
    NoIdle(tr.channel) && Recording(tr.channel) && Partitioned(tr) && NeededKept(tr) && Remembered(tr)
  }

  lemma {:induction false} RetentionFrom(tr: Trace, evs: seq<Event>)
    requires Retains(tr) && LegalRun(tr, evs)
    ensures Retains(Run(tr, evs))
    decreases |evs|
  {
    if evs != [] {
      StepKeepsNoIdle(tr.channel, evs[0]);
      StepKeepsPartition(tr, evs[0]);
      StepKeepsNeeded(tr, evs[0]);
      StepKeepsAdded(tr, evs[0]);
      RetentionFrom(Next(tr, evs[0]), evs[1..]);
    }
  }

  lemma {:induction false} OrderFrom(tr: Trace, evs: seq<Event>)
    requires Retains(tr) && InOrder(tr) && Recorded(tr) && LegalRun(tr, evs) && TimelyRun(tr, evs)
    ensures Retains(Run(tr, evs)) && InOrder(Run(tr, evs)) && Recorded(Run(tr, evs))
    decreases |evs|
  {
    if evs != [] {
      var ev := evs[0];
      StepKeepsNoIdle(tr.channel, ev);
      StepKeepsPartition(tr, ev);
      StepKeepsNeeded(tr, ev);
      StepKeepsAdded(tr, ev);
      StepKeepsOrder(tr, ev);
      StepKeepsRecorded(tr, ev);
      OrderFrom(Next(tr, ev), evs[1..]);
    }
  }

  /**
   * Exact retention, over every legal run in any order of times and with any recording: a frame off the
   * air is kept only while a frame on the air meets it or the recording reaches it, and it is kept
   * whenever a frame that was there at its removal is still on the air and meets it.
   */
  lemma ExactRetention(evs: seq<Event>)
    requires LegalRun(START, evs)
    ensures var tr := Run(START, evs);
      && Partitioned(tr)
      && (forall x :: x in tr.channel.inactive ==> IsIntersecting(tr.channel.active, x.start, x.End()) || -1 < tr.channel.recordStart <= x.End())
      && (forall r, a :: (r, a) in tr.coexisted && a in tr.channel.active && Meets(r, a.start, a.End()) ==> r in tr.channel.inactive)
  {
    RetentionFrom(START, evs);
  }

  /** Nothing is kept on an idle channel: outside recordings, no frame on the air means no frame at all. */
  lemma EmptyWhenIdle(evs: seq<Event>)
    requires LegalRun(START, evs)
    ensures var c := Run(START, evs).channel;
      c.recordStart == -1 ==> (c.active == {} <==> c.active + c.inactive == {})
  {
    RetentionFrom(START, evs);
    var c := Run(START, evs).channel;
    if c.recordStart == -1 && c.active == {} {
      assert forall x :: x in c.inactive ==> !IsIntersecting(c.active, x.start, x.End());
      assert c.inactive == {};
    }
  }

  /** A query over the interval returns every frame, ever added, that meets it. */
  ghost predicate Complete(tr: Trace, from: int, to: int) {
    forall e :: e in tr.added && Meets(e, from, to) ==> e in tr.channel.active + tr.channel.inactive
  }

  /** Inside a frame on the air, but after its first instant, a query misses nothing. */
  lemma CompleteInsideActive(evs: seq<Event>, a: Entry, from: int, to: int)
    requires LegalRun(START, evs) && TimelyRun(START, evs)
    requires a in Run(START, evs).channel.active && a.start < from && to <= a.End()
    ensures Complete(Run(START, evs), from, to)
  {
    OrderFrom(START, evs);
    var tr := Run(START, evs);
    forall e | e in tr.added && Meets(e, from, to)
      ensures e in tr.channel.active + tr.channel.inactive
    {
      if e !in tr.channel.active {
        assert (e, a) in tr.coexisted;
        assert Meets(e, a.start, a.End());
      }
    }
  }

  /** After the first instant of a recording a query misses nothing, whatever is on the air. */
  lemma CompleteWhileRecording(evs: seq<Event>, from: int, to: int)
    requires LegalRun(START, evs) && TimelyRun(START, evs)
    requires -1 < Run(START, evs).channel.recordStart < from
    ensures Complete(Run(START, evs), from, to)
  {
    OrderFrom(START, evs);
  }

  /** A frame that ended in the instant another begins is gone when the query starts in that instant. */
  lemma TouchingFrameMissed(a: Entry, to: int) returns (evs: seq<Event>)
    requires 0 <= a.start <= to
    ensures LegalRun(START, evs) && TimelyRun(START, evs)
    ensures a in Run(START, evs).channel.active && !Complete(Run(START, evs), a.start, to)
  {
    var e := Entry(0, AirFrame(a.frame.id + 1, a.start));
    var c0 := Add(EMPTY, e);
    var c1 := Remove(c0, e);
    var c2 := Add(c1, a);
    var t0 := Trace(c0, 0, {e}, {});
    assert c0.active == {e};
    assert c1.active == {} && c1.inactive == {};
    var t1 := Trace(c1, e.End(), {e}, {});
    var t2 := Trace(c2, a.start, {e, a}, {});
    evs := [Begin(e), Finish(e), Begin(a)];
    assert Next(START, Begin(e)) == t0;
    assert Next(t0, Finish(e)) == t1;
    assert Next(t1, Begin(a)) == t2;
    RunOfThree(START, t0, t1, t2, evs);
    assert e in t2.added && Meets(e, a.start, to);
  }

  lemma RunOfThree(t: Trace, t0: Trace, t1: Trace, t2: Trace, evs: seq<Event>)
    requires |evs| == 3 && Next(t, evs[0]) == t0 && Next(t0, evs[1]) == t1 && Next(t1, evs[2]) == t2
    requires Legal(t, evs[0]) && Legal(t0, evs[1]) && Legal(t1, evs[2])
    requires Timely(t, evs[0]) && Timely(t0, evs[1]) && Timely(t1, evs[2])
    ensures Run(t, evs) == t2 && LegalRun(t, evs) && TimelyRun(t, evs)
  {
    hide Next, Legal, Timely;
    var b, c := evs[1..], evs[2..];
    assert b[1..] == c && c[1..] == [];
    assert Run(t2, []) == t2 && LegalRun(t2, []) && TimelyRun(t2, []);
    assert Run(t1, c) == t2 && LegalRun(t1, c) && TimelyRun(t1, c);
    assert Run(t0, b) == t2 && LegalRun(t0, b) && TimelyRun(t0, b);
  }

  /**
   * Exactly when an interval inside a frame on the air can be relied on: never when it starts with that
   * frame, always when it starts later.
   */
  lemma CompleteIffAfterStart(a: Entry, from: int, to: int)
    requires 0 <= a.start <= from <= to <= a.End()
    ensures a.start < from <==>
      forall evs :: LegalRun(START, evs) && TimelyRun(START, evs) && a in Run(START, evs).channel.active ==> Complete(Run(START, evs), from, to)
  {
    if a.start < from {
      forall evs | LegalRun(START, evs) && TimelyRun(START, evs) && a in Run(START, evs).channel.active
        ensures Complete(Run(START, evs), from, to)
      {
        CompleteInsideActive(evs, a, from, to);
      }
    } else {
      var evs := TouchingFrameMissed(a, to);
    }
  }

  // ---- What is on the air, and since when is recorded ----

  predicate During(t: int, from: int, to: int) {
    from <= t <= to
  }

  /** A frame meets an interval exactly when the two have an instant in common. */
  lemma MeetsAtInstant(e: Entry, from: int, to: int)
    requires e.start <= e.End() && from <= to
    ensures Meets(e, from, to) <==> exists t :: During(t, e.start, e.End()) && During(t, from, to)
  {
    if Meets(e, from, to) {
      var t := if e.start <= from then from else e.start;
      assert During(t, e.start, e.End()) && During(t, from, to);
    }
  }

  /** The start of the recording under way: that of the last one begun, unless it was stopped. */
  function RecordingSince(evs: seq<Event>): int {
    if evs == [] then -1 else
      match evs[|evs| - 1]
      case StartRec(at) => at
      case StopRec => -1
      case _ => RecordingSince(evs[..|evs| - 1])
  }

  lemma {:induction false} RunAppend(tr: Trace, evs: seq<Event>, ev: Event)
    ensures Run(tr, evs + [ev]) == Next(Run(tr, evs), ev)
    ensures LegalRun(tr, evs + [ev]) <==> LegalRun(tr, evs) && Legal(Run(tr, evs), ev)
    decreases |evs|
  {
    hide Next, Legal;
    if evs == [] {
      assert [] + [ev] == [ev] && [ev][1..] == [];
      assert Run(tr, [ev]) == Run(Next(tr, ev), []);
      assert LegalRun(tr, [ev]) <==> Legal(tr, ev) && LegalRun(Next(tr, ev), []);
    } else {
      assert (evs + [ev])[0] == evs[0] && (evs + [ev])[1..] == evs[1..] + [ev];
      RunAppend(Next(tr, evs[0]), evs[1..], ev);
    }
  }

  /**
   * After every run, a frame is on the air exactly when it began and has not finished, and the recording is the
   * one last started, if it was not stopped.
   */
  lemma {:induction false} OnAirExact(evs: seq<Event>)
    requires LegalRun(START, evs)
    ensures var tr := Run(START, evs);
      && (forall e :: e in tr.channel.active <==> Begin(e) in evs && Finish(e) !in evs)
      && (forall e :: e in tr.added <==> Begin(e) in evs)
      && (forall e :: Finish(e) in evs ==> Begin(e) in evs)
      && tr.channel.recordStart == RecordingSince(evs) && Recording(tr.channel)
    decreases |evs|
  {
    if evs != [] {
      var n := |evs| - 1;
      var before, ev := evs[..n], evs[n];
      assert evs == before + [ev];
      RunAppend(START, before, ev);
      OnAirExact(before);
      assert forall x :: x in evs <==> x in before || x == ev;
      hide Run, LegalRun, Cleaned, Add, Remove, StartRecording, StopRecording;
      StepOnAir(Run(START, before), ev);
    }
  }

  lemma StepOnAir(tr: Trace, ev: Event)
    requires Recording(tr.channel)
    ensures var c, d := tr.channel, Step(tr.channel, ev);
      && (forall e :: e in d.active <==> (e in c.active || ev == Begin(e)) && ev != Finish(e))
      && d.recordStart == (match ev case StartRec(at) => at case StopRec => -1 case _ => c.recordStart)
  {
  }
}
