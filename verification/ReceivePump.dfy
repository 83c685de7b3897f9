/**
 Receiving from QUIC, where a delivered packet does not say which stream it came from: the application
 keeps one recv outstanding per connection and takes the packet to be of that stream. Requests and
 answers travel through two first-in first-out channels.
 */
module ReceivePump {
  import opened Bytes

  /** What QUIC sends up. `origin` is the truth about a packet; the application cannot read it. */
  datatype Message = Available(stream: int) | Packet(origin: int, bytes: Bytes)

  const NONE := -1

  /** The application's side: what it waits for, what it has asked for, and the packets it has filed per stream. */
  datatype App = App(pending: set<int>, inFlight: int, filed: map<int, seq<Bytes>>)

  /** `unread` is what QUIC holds per stream, `arrived` everything that ever came from the network. */
  datatype State = State(app: App, requests: seq<int>, messages: seq<Message>, unread: map<int, Bytes>, arrived: map<int, Bytes>)

  const START := State(App({}, NONE, map[]), [], [], map[], map[])

  function At(m: map<int, Bytes>, s: int): Bytes {
    if s in m then m[s] else []
  }

  function PacketsOn(filed: map<int, seq<Bytes>>, s: int): seq<Bytes> {
    if s in filed then filed[s] else []
  }

  function FiledOn(app: App, s: int): seq<Bytes> {
    PacketsOn(app.filed, s)
  }

  ghost predicate IsLeast(s: int, xs: set<int>) {
    s in xs && forall t :: t in xs ==> s <= t
  }

  lemma {:induction false} LeastExists(xs: set<int>, x: int)
    requires x in xs
    ensures exists s :: IsLeast(s, xs)
    decreases |xs|
  {
    if y :| y in xs && y < x {
      assert xs == (xs - {x}) + {x};
      LeastExists(xs - {x}, y);
      var s :| IsLeast(s, xs - {x});
      assert IsLeast(s, xs);
    } else {
      assert IsLeast(x, xs);
    }
  }

  ghost function Least(xs: set<int>): (s: int)
    requires exists x :: x in xs
    ensures IsLeast(s, xs)
  {
    var x :| x in xs;
    LeastExists(xs, x);
    var s :| IsLeast(s, xs);
    s
  }

  /** startNextRecv: the new application state, and the stream of the recv it issues. */
  ghost function StartNext(app: App): (App, seq<int>) {
    if exists s :: s in app.pending then
      var s := Least(app.pending);
      (app.(pending := app.pending - {s}, inFlight := s), [s])
    else (app.(inFlight := NONE), [])
  }

  /** With streams waiting, the next recv is for the least of them, which waits no longer; else there is none. */
  lemma LeastFirst(app: App, s: int)
    requires s in app.pending
    ensures var (a, issued) := StartNext(app);
      && |issued| == 1 && issued[0] in app.pending && issued[0] <= s
      && a.inFlight == issued[0] && a.filed == app.filed
      && (forall t :: t in a.pending <==> t in app.pending && t != issued[0])
  {
    assert IsLeast(Least(app.pending), app.pending);
  }

  /** socketDataAvailable. */
  ghost function OnAvailable(app: App, s: int): (App, seq<int>) {
    if app.inFlight == s then (app, [])
    else
      var a := app.(pending := app.pending + {s});
      if app.inFlight < 0 then StartNext(a) else (a, [])
  }

  /** socketDataArrived: the packet is filed under the stream of the outstanding recv. */
  ghost function OnPacket(app: App, bytes: Bytes): (App, seq<int>) {
    StartNext(app.(inFlight := NONE, filed := app.filed[app.inFlight := FiledOn(app, app.inFlight) + [bytes]]))
  }

  /** What can happen: data comes from the network, QUIC serves a request, the application handles a message. */
  datatype Event = Network(stream: int, bytes: Bytes, notify: bool) | Serve | Handle

  /** Data on a stream that had none is always announced; further data may be. */
  function OnNetwork(st: State, s: int, bytes: Bytes, notify: bool): State {
    st.(unread := st.unread[s := At(st.unread, s) + bytes],
        arrived := st.arrived[s := At(st.arrived, s) + bytes],
        messages := st.messages + if notify || At(st.unread, s) == [] then [Available(s)] else [])
  }

  /** A recv large enough to drain the stream; on an empty stream there is nothing to answer. */
  function OnServe(st: State): State
    requires st.requests != []
  {
    var s := st.requests[0];
    var rest := st.(requests := st.requests[1..]);
    if At(st.unread, s) == [] then rest
    else rest.(unread := st.unread[s := []], messages := st.messages + [Packet(s, st.unread[s])])
  }

  ghost function OnHandle(st: State): State
    requires st.messages != []
  {
    var (app, issued) := match st.messages[0]
      case Available(s) => OnAvailable(st.app, s)
      case Packet(_, bytes) => OnPacket(st.app, bytes);
    st.(app := app, requests := st.requests + issued, messages := st.messages[1..])
  }

  ghost predicate Enabled(st: State, e: Event) {
    match e
    case Network(s, bytes, _) => s >= 0 && bytes != []
    case Serve => st.requests != []
    case Handle => st.messages != []
  }

  ghost function Step(st: State, e: Event): State
    requires Enabled(st, e)
  {
    match e
    case Network(s, bytes, notify) => OnNetwork(st, s, bytes, notify)
    case Serve => OnServe(st)
    case Handle => OnHandle(st)
  }

  ghost predicate Runs(st: State, es: seq<Event>)
    decreases |es|
  {
    es == [] || (Enabled(st, es[0]) && Runs(Step(st, es[0]), es[1..]))
  }

  ghost function Run(st: State, es: seq<Event>): State
    requires Runs(st, es)
    decreases |es|
  {
    if es == [] then st else Run(Step(st, es[0]), es[1..])
  }

  // ---- What holds throughout ----

  /** One recv is outstanding, or none: its request is on the way to QUIC, or else its packet is on the way up. */
  ghost predicate OneOutstanding(st: State) {
    && (forall i :: 0 <= i < |st.messages| && st.messages[i].Packet? ==> st.messages[i].origin == st.app.inFlight && st.requests == [])
    && (forall i, j :: 0 <= i < j < |st.messages| && st.messages[i].Packet? ==> !st.messages[j].Packet?)
    && (st.requests == [] || st.requests == [st.app.inFlight])
    && (if st.app.inFlight < 0 then
          st.app.inFlight == NONE && (forall s :: s !in st.app.pending) && st.requests == [] && !Answered(st.messages)
        else
          st.requests == [] ==> Answered(st.messages))
  }

  ghost predicate Answered(ms: seq<Message>) {
    exists i :: 0 <= i < |ms| && ms[i].Packet?
  }

  /** The bytes of a stream that are on their way up. */
  function InFlight(ms: seq<Message>, s: int): Bytes {
    if ms == [] then [] else Carried(ms[0], s) + InFlight(ms[1..], s)
  }

  function Carried(m: Message, s: int): Bytes {
    if m.Packet? && m.origin == s then m.bytes else []
  }

  /** Per stream, what is filed, what is on its way up and what is unread is what arrived, in order. */
  ghost predicate Conserved(st: State) {
    forall s :: Concat(FiledOn(st.app, s)) + InFlight(st.messages, s) + At(st.unread, s) == At(st.arrived, s)
  }

  /** A packet of the stream follows the announcement. */
  ghost predicate DrainedAfter(ms: seq<Message>, i: nat, s: int) {
    exists j :: i < j < |ms| && ms[j].Packet? && ms[j].origin == s
  }

  /** There is an announcement of the stream that no packet of it follows. */
  ghost predicate Announced(ms: seq<Message>, s: int) {
    exists i: nat :: i < |ms| && ms[i] == Available(s) && !DrainedAfter(ms, i, s)
  }

  /** Unread bytes are announced, waited for, or about to be drained. */
  ghost predicate NoneForgotten(st: State) {
    forall s :: At(st.unread, s) != [] ==> Announced(st.messages, s) || s in st.app.pending || s in st.requests
  }

  /** What is waited for or asked for is there to be read. */
  ghost predicate NoneInVain(st: State) {
    && (forall s :: s in st.app.pending || s in st.requests ==> At(st.unread, s) != [])
    && (forall i: nat, s :: i < |st.messages| && st.messages[i] == Available(s) ==> At(st.unread, s) != [] || DrainedAfter(st.messages, i, s))
  }

  ghost predicate StreamsKnown(st: State) {
    && (forall s :: s in st.app.pending ==> s >= 0 && s != st.app.inFlight)
    && (forall i :: 0 <= i < |st.messages| && st.messages[i].Available? ==> st.messages[i].stream >= 0)
  }

  ghost predicate Inv(st: State) {
    OneOutstanding(st) && Conserved(st) && NoneForgotten(st) && NoneInVain(st) && StreamsKnown(st)
  }

  // ---- Messages appended and taken off ----

  lemma {:induction false} InFlightAppend(ms: seq<Message>, m: Message, s: int)
    ensures InFlight(ms + [m], s) == InFlight(ms, s) + Carried(m, s)
  {
    hide Carried;
    if ms == [] {
      assert [] + [m] == [m] && [m][1..] == [];
    } else {
      assert (ms + [m])[1..] == ms[1..] + [m];
      InFlightAppend(ms[1..], m, s);
      Associate(Carried(ms[0], s), InFlight(ms[1..], s), Carried(m, s));
    }
  }

  lemma Associate(a: Bytes, b: Bytes, c: Bytes)
    ensures a + (b + c) == (a + b) + c
  {
  }

  lemma TailInFlight(ms: seq<Message>, s: int)
    requires ms != [] && ms[0].Available?
    ensures InFlight(ms[1..], s) == InFlight(ms, s)
  {
    assert [] + InFlight(ms[1..], s) == InFlight(ms[1..], s);
  }

  lemma {:induction false} ConcatAppend(parts: seq<Bytes>, b: Bytes)
    ensures Concat(parts + [b]) == Concat(parts) + b
  {
    if parts == [] {
      assert [b][1..] == [];
    } else {
      assert (parts + [b])[1..] == parts[1..] + [b];
      ConcatAppend(parts[1..], b);
    }
  }

  lemma {:induction false} NothingInFlight(ms: seq<Message>, s: int)
    requires forall i :: 0 <= i < |ms| && ms[i].Packet? ==> ms[i].origin != s
    ensures InFlight(ms, s) == []
  {
    if ms != [] {
      NothingInFlight(ms[1..], s);
    }
  }

  lemma DrainedAppend(ms: seq<Message>, m: Message, i: nat, s: int)
    requires i < |ms|
    ensures DrainedAfter(ms + [m], i, s) <==> DrainedAfter(ms, i, s) || (m.Packet? && m.origin == s)
  {
    var r := ms + [m];
    assert r[|ms|] == m;
    if DrainedAfter(ms, i, s) {
      var j :| i < j < |ms| && ms[j].Packet? && ms[j].origin == s;
      assert r[j] == ms[j];
    }
  }

  lemma DrainedTail(ms: seq<Message>, i: nat, s: int)
    requires ms != [] && i < |ms| - 1
    ensures DrainedAfter(ms[1..], i, s) <==> DrainedAfter(ms, i + 1, s)
  {
    if DrainedAfter(ms, i + 1, s) {
      var j :| i + 1 < j < |ms| && ms[j].Packet? && ms[j].origin == s;
      assert ms[1..][j - 1] == ms[j];
    }
  }

  lemma AnnouncedAppend(ms: seq<Message>, m: Message, s: int)
    requires !(m.Packet? && m.origin == s) && (Announced(ms, s) || m == Available(s))
    ensures Announced(ms + [m], s)
  {
    var r := ms + [m];
    if m == Available(s) {
      assert r[|ms|] == Available(s) && !DrainedAfter(r, |ms|, s);
    } else {
      var i: nat :| i < |ms| && ms[i] == Available(s) && !DrainedAfter(ms, i, s);
      DrainedAppend(ms, m, i, s);
      assert r[i] == Available(s);
    }
  }

  lemma AnnouncedTail(ms: seq<Message>, s: int)
    requires ms != [] && Announced(ms, s) && !(ms[0] == Available(s) && !DrainedAfter(ms, 0, s))
    ensures Announced(ms[1..], s)
  {
    var i: nat :| i < |ms| && ms[i] == Available(s) && !DrainedAfter(ms, i, s);
    DrainedTail(ms, i - 1, s);
    assert ms[1..][i - 1] == Available(s);
  }

  // ---- Data from the network ----

  lemma NetworkInv(st: State, s: int, bytes: Bytes, notify: bool)
    requires Inv(st) && s >= 0 && bytes != []
    ensures Inv(OnNetwork(st, s, bytes, notify))
  {
    hide OneOutstanding, Conserved, NoneForgotten, NoneInVain, StreamsKnown;
    NetworkConserved(st, s, bytes, notify);
    NetworkForgotten(st, s, bytes, notify);
    NetworkVain(st, s, bytes, notify);
    NetworkOne(st, s, bytes, notify);
    NetworkKnown(st, s, bytes, notify);
  }

  lemma NetworkKnown(st: State, s: int, bytes: Bytes, notify: bool)
    requires StreamsKnown(st) && s >= 0
    ensures StreamsKnown(OnNetwork(st, s, bytes, notify))
  {
  }

  lemma NetworkConserved(st: State, s: int, bytes: Bytes, notify: bool)
    requires Conserved(st)
    ensures Conserved(OnNetwork(st, s, bytes, notify))
  {
    hide Concat, FiledOn, InFlight;
    var r := OnNetwork(st, s, bytes, notify);
    assert r.messages == st.messages || r.messages == st.messages + [Available(s)];
    forall t
      ensures Concat(FiledOn(r.app, t)) + InFlight(r.messages, t) + At(r.unread, t) == At(r.arrived, t)
    {
      InFlightAppend(st.messages, Available(s), t);
      assert InFlight(st.messages, t) + [] == InFlight(st.messages, t);
      Extend(Concat(FiledOn(st.app, t)) + InFlight(st.messages, t), At(st.unread, t), bytes);
    }
  }

  lemma Extend(a: Bytes, b: Bytes, c: Bytes)
    ensures a + (b + c) == (a + b) + c
  {
  }

  lemma NetworkOne(st: State, s: int, bytes: Bytes, notify: bool)
    requires OneOutstanding(st)
    ensures OneOutstanding(OnNetwork(st, s, bytes, notify))
  {
    var r := OnNetwork(st, s, bytes, notify);
    if Answered(st.messages) {
      var i :| 0 <= i < |st.messages| && st.messages[i].Packet?;
      assert r.messages[i].Packet?;
    }
  }

  lemma NetworkForgotten(st: State, s: int, bytes: Bytes, notify: bool)
    requires NoneForgotten(st)
    ensures NoneForgotten(OnNetwork(st, s, bytes, notify))
  {
    var r := OnNetwork(st, s, bytes, notify);
    assert st.messages + [] == st.messages;
    forall t | At(r.unread, t) != []
      ensures Announced(r.messages, t) || t in r.app.pending || t in r.requests
    {
      if (notify || At(st.unread, s) == []) && (t == s || Announced(st.messages, t)) {
        AnnouncedAppend(st.messages, Available(s), t);
      }
    }
  }

  lemma NetworkVain(st: State, s: int, bytes: Bytes, notify: bool)
    requires NoneInVain(st) && bytes != []
    ensures NoneInVain(OnNetwork(st, s, bytes, notify))
  {
    var r := OnNetwork(st, s, bytes, notify);
    forall i: nat, t | i < |r.messages| && r.messages[i] == Available(t)
      ensures At(r.unread, t) != [] || DrainedAfter(r.messages, i, t)
    {
      if t != s && r.messages != st.messages {
        DrainedAppend(st.messages, Available(s), i, t);
      }
    }
  }

  // ---- QUIC serves a recv ----

  /** The stream of the outstanding request has bytes: no recv is ever in vain. */
  lemma ServedStreamHasBytes(st: State)
    requires Inv(st) && st.requests != []
    ensures st.requests == [st.app.inFlight] && st.app.inFlight >= 0 && At(st.unread, st.app.inFlight) != []
    ensures forall i :: 0 <= i < |st.messages| ==> !st.messages[i].Packet?
  {
    assert st.requests[0] in st.requests;
  }

  lemma ServeInv(st: State)
    requires Inv(st) && st.requests != []
    ensures Inv(OnServe(st))
  {
    ServedStreamHasBytes(st);
    var s := st.app.inFlight;
    var m := Packet(s, st.unread[s]);
    assert OnServe(st).messages == st.messages + [m];
    ServeOutstanding(st, s, m);
    ServeConserved(st, s, m);
    ServeNoneForgotten(st, s, m);
    hide OneOutstanding, Conserved, NoneForgotten, Announced, DrainedAfter;
    forall i: nat, t | i < |OnServe(st).messages| && OnServe(st).messages[i] == Available(t)
      ensures At(OnServe(st).unread, t) != [] || DrainedAfter(OnServe(st).messages, i, t)
    {
      DrainedAppend(st.messages, m, i, t);
    }
  }

  lemma ServeOutstanding(st: State, s: int, m: Message)
    requires OneOutstanding(st) && st.requests == [s] && s == st.app.inFlight && At(st.unread, s) != [] && m == Packet(s, st.unread[s])
    ensures OneOutstanding(OnServe(st))
  {
    var r := OnServe(st);
    assert r.messages == st.messages + [m];
    assert r.messages[|st.messages|] == m;
  }

  lemma ServeNoneForgotten(st: State, s: int, m: Message)
    requires NoneForgotten(st) && st.requests == [s] && At(st.unread, s) != [] && m == Packet(s, st.unread[s])
    ensures NoneForgotten(OnServe(st))
  {
    var r := OnServe(st);
    forall t | At(r.unread, t) != []
      ensures Announced(r.messages, t) || t in r.app.pending || t in r.requests
    {
      if Announced(st.messages, t) {
        AnnouncedAppend(st.messages, m, t);
      }
    }
  }

  lemma ServeConserved(st: State, s: int, m: Message)
    requires Conserved(st) && st.requests == [s] && At(st.unread, s) != [] && m == Packet(s, st.unread[s])
    requires forall i :: 0 <= i < |st.messages| ==> !st.messages[i].Packet?
    ensures Conserved(OnServe(st))
  {
    var r := OnServe(st);
    forall t
      ensures Concat(FiledOn(r.app, t)) + InFlight(r.messages, t) + At(r.unread, t) == At(r.arrived, t)
    {
      InFlightAppend(st.messages, m, t);
      NothingInFlight(st.messages, t);
      assert Concat(FiledOn(st.app, t)) + InFlight(st.messages, t) + At(st.unread, t) == At(st.arrived, t);
    }
  }

  // ---- The application handles a message ----

  /** Between two recvs: nothing is asked for and no packet is on its way. */
  ghost predicate Between(st: State) {
    && st.app.inFlight == NONE && st.requests == [] && (forall i :: 0 <= i < |st.messages| ==> !st.messages[i].Packet?)
    && Conserved(st) && NoneForgotten(st) && NoneInVain(st) && StreamsKnown(st)
  }

  function Started(st: State, app: App, issued: seq<int>): State {
    st.(app := app, requests := st.requests + issued)
  }

  /** startNextRecv takes the least waiting stream, or leaves nothing outstanding when none waits. */
  lemma StartInv(st: State)
    requires Between(st)
    ensures var (app, issued) := StartNext(st.app);
      Inv(Started(st, app, issued))
  {
    var (app, issued) := StartNext(st.app);
    var r := Started(st, app, issued);
    assert forall t :: FiledOn(r.app, t) == FiledOn(st.app, t);
    assert issued == [] || (issued == [app.inFlight] && app.inFlight in st.app.pending);
    assert forall t :: t in st.app.pending ==> t in r.app.pending || t in r.requests;
  }

  /** The message at the front goes; an announcement of `s` may go with it if `s` is accounted for otherwise. */
  lemma TailForgotten(st: State, s: int)
    requires NoneForgotten(st) && st.messages != []
    requires st.messages[0] == Available(s) || st.messages[0].Packet?
    ensures forall t :: At(st.unread, t) != [] && (t != s || st.messages[0].Packet? || DrainedAfter(st.messages, 0, t)) ==>
      Announced(st.messages[1..], t) || t in st.app.pending || t in st.requests
  {
    forall t | At(st.unread, t) != [] && (t != s || st.messages[0].Packet? || DrainedAfter(st.messages, 0, t))
      ensures Announced(st.messages[1..], t) || t in st.app.pending || t in st.requests
    {
      if Announced(st.messages, t) {
        AnnouncedTail(st.messages, t);
      }
    }
  }

  lemma TailVain(st: State)
    requires NoneInVain(st) && st.messages != []
    ensures forall i: nat, t :: i < |st.messages[1..]| && st.messages[1..][i] == Available(t) ==>
      At(st.unread, t) != [] || DrainedAfter(st.messages[1..], i, t)
  {
    forall i: nat, t | i < |st.messages[1..]| && st.messages[1..][i] == Available(t)
      ensures At(st.unread, t) != [] || DrainedAfter(st.messages[1..], i, t)
    {
      assert st.messages[i + 1] == Available(t);
      DrainedTail(st.messages, i, t);
    }
  }

  /** An announcement that the outstanding recv will take care of is dropped. */
  lemma IgnoredInv(st: State)
    requires Inv(st) && st.messages != [] && st.messages[0] == Available(st.app.inFlight)
    ensures Inv(st.(messages := st.messages[1..]))
  {
    hide NoneForgotten, NoneInVain, Conserved, OneOutstanding, StreamsKnown;
    IgnoredRest(st);
    IgnoredOne(st);
    IgnoredForgotten(st);
  }

  lemma IgnoredOne(st: State)
    requires OneOutstanding(st) && st.messages != [] && st.messages[0].Available?
    ensures OneOutstanding(st.(messages := st.messages[1..]))
  {
    TailAnswered(st.messages);
    hide Answered;
    var r := st.(messages := st.messages[1..]);
    assert forall i :: 0 <= i < |r.messages| ==> r.messages[i] == st.messages[i + 1];
  }

  lemma IgnoredForgotten(st: State)
    requires NoneForgotten(st) && OneOutstanding(st) && st.messages != [] && st.messages[0] == Available(st.app.inFlight) && st.messages[0].stream >= 0
    ensures NoneForgotten(st.(messages := st.messages[1..]))
  {
    var s := st.app.inFlight;
    TailForgotten(st, s);
    if s !in st.requests {
      var j :| 0 <= j < |st.messages| && st.messages[j].Packet?;
      assert DrainedAfter(st.messages, 0, s);
    }
  }

  lemma IgnoredRest(st: State)
    requires NoneInVain(st) && Conserved(st) && StreamsKnown(st) && st.messages != [] && st.messages[0].Available?
    ensures var r := st.(messages := st.messages[1..]);
      NoneInVain(r) && Conserved(r) && StreamsKnown(r) && st.messages[0].stream >= 0
  {
    TailVain(st);
    hide DrainedAfter, Concat, InFlight;
    var r := st.(messages := st.messages[1..]);
    forall t
      ensures InFlight(r.messages, t) == InFlight(st.messages, t)
    {
      TailInFlight(st.messages, t);
    }
    assert forall i :: 0 <= i < |r.messages| ==> r.messages[i] == st.messages[i + 1];
  }

  lemma TailAnswered(ms: seq<Message>)
    requires ms != [] && ms[0].Available?
    ensures Answered(ms[1..]) <==> Answered(ms)
  {
    if Answered(ms) {
      var i :| 0 <= i < |ms| && ms[i].Packet?;
      assert ms[1..][i - 1] == ms[i];
    }
  }

  /** The state once an announcement of another stream is noted. */
  function Noted(st: State, s: int): State
    requires st.messages != []
  {
    st.(app := st.app.(pending := st.app.pending + {s}), messages := st.messages[1..])
  }

  lemma NotedConserved(st: State, s: int)
    requires Conserved(st) && st.messages != [] && st.messages[0].Available?
    ensures Conserved(Noted(st, s))
  {
    var r := Noted(st, s);
    forall t
      ensures Concat(FiledOn(r.app, t)) + InFlight(r.messages, t) + At(r.unread, t) == At(r.arrived, t)
    {
      TailInFlight(st.messages, t);
      assert Concat(FiledOn(st.app, t)) + InFlight(st.messages, t) + At(st.unread, t) == At(st.arrived, t);
    }
  }

  lemma NotedForgotten(st: State, s: int)
    requires NoneForgotten(st) && st.messages != [] && st.messages[0] == Available(s)
    ensures NoneForgotten(Noted(st, s))
  {
    TailForgotten(st, s);
    hide Announced, DrainedAfter;
  }

  lemma NotedVain(st: State, s: int)
    requires NoneInVain(st) && st.messages != [] && st.messages[0] == Available(s) && !DrainedAfter(st.messages, 0, s)
    ensures NoneInVain(Noted(st, s))
  {
    TailVain(st);
    hide DrainedAfter;
  }

  lemma NotedKnown(st: State, s: int)
    requires StreamsKnown(st) && st.messages != [] && st.messages[0] == Available(s) && s != st.app.inFlight
    ensures StreamsKnown(Noted(st, s))
  {
    var r := Noted(st, s);
    assert forall i :: 0 <= i < |r.messages| ==> r.messages[i] == st.messages[i + 1];
  }

  lemma NotedParts(st: State, s: int)
    requires Inv(st) && st.messages != [] && st.messages[0] == Available(s) && s != st.app.inFlight
    ensures var r := Noted(st, s);
      Conserved(r) && NoneForgotten(r) && NoneInVain(r) && StreamsKnown(r)
  {
    assert !DrainedAfter(st.messages, 0, s);
    hide Conserved, NoneForgotten, NoneInVain, StreamsKnown;
    NotedConserved(st, s);
    NotedForgotten(st, s);
    NotedVain(st, s);
    NotedKnown(st, s);
  }

  lemma NotedInv(st: State, s: int)
    requires Inv(st) && st.messages != [] && st.messages[0] == Available(s) && s != st.app.inFlight
    ensures st.app.inFlight >= 0 ==> Inv(Noted(st, s))
    ensures st.app.inFlight < 0 ==> Between(Noted(st, s))
  {
    NotedParts(st, s);
    TailAnswered(st.messages);
    hide Conserved, NoneForgotten, NoneInVain;
  }

  /** The state once a packet is filed. */
  function Filed(st: State, bytes: Bytes): State
    requires st.messages != []
  {
    var app := st.app;
    st.(app := app.(inFlight := NONE, filed := app.filed[app.inFlight := FiledOn(app, app.inFlight) + [bytes]]), messages := st.messages[1..])
  }

  /** The packet is of the stream it is filed under. */
  lemma FiledConserved(st: State, bytes: Bytes)
    requires Conserved(st) && st.messages != [] && st.messages[0] == Packet(st.app.inFlight, bytes)
    ensures Conserved(Filed(st, bytes))
  {
    var r := Filed(st, bytes);
    hide Concat, InFlight;
    forall t
      ensures Concat(FiledOn(r.app, t)) + InFlight(r.messages, t) + At(r.unread, t) == At(r.arrived, t)
    {
      assert Concat(FiledOn(st.app, t)) + InFlight(st.messages, t) + At(st.unread, t) == At(st.arrived, t);
      FiledOnStream(st, bytes, t);
    }
  }

  lemma FiledOnStream(st: State, bytes: Bytes, t: int)
    requires st.messages != [] && st.messages[0] == Packet(st.app.inFlight, bytes)
    ensures var r := Filed(st, bytes);
      Concat(FiledOn(r.app, t)) + InFlight(r.messages, t) + At(st.unread, t)
      == Concat(FiledOn(st.app, t)) + InFlight(st.messages, t) + At(st.unread, t)
  {
    FirstInFlight(st.messages, t);
    hide Concat, InFlight;
    var before, rest := FiledOn(st.app, t), InFlight(st.messages[1..], t);
    if t == st.app.inFlight {
      ConcatAppend(before, bytes);
      Regroup(Concat(before), bytes, rest, At(st.unread, t));
    } else {
      assert [] + rest == rest;
    }
  }

  lemma FirstInFlight(ms: seq<Message>, s: int)
    requires ms != []
    ensures InFlight(ms, s) == Carried(ms[0], s) + InFlight(ms[1..], s)
  {
  }

  lemma Regroup(a: Bytes, b: Bytes, c: Bytes, d: Bytes)
    ensures (a + b) + c + d == a + (b + c) + d
  {
  }

  lemma FiledBetween(st: State, bytes: Bytes)
    requires Inv(st) && st.messages != [] && st.messages[0] == Packet(st.app.inFlight, bytes)
    ensures Between(Filed(st, bytes))
  {
    FiledConserved(st, bytes);
    FiledForgotten(st, bytes);
    FiledVain(st, bytes);
    hide Conserved, NoneForgotten, NoneInVain;
    var r := Filed(st, bytes);
    assert forall i :: 0 <= i < |r.messages| ==> r.messages[i] == st.messages[i + 1];
  }

  lemma FiledForgotten(st: State, bytes: Bytes)
    requires NoneForgotten(st) && st.messages != [] && st.messages[0].Packet?
    ensures NoneForgotten(Filed(st, bytes))
  {
    TailForgotten(st, NONE);
    hide Announced, DrainedAfter;
  }

  lemma FiledVain(st: State, bytes: Bytes)
    requires NoneInVain(st) && st.messages != []
    ensures NoneInVain(Filed(st, bytes))
  {
    TailVain(st);
    hide DrainedAfter;
  }

  lemma HandleInv(st: State)
    requires Inv(st) && st.messages != []
    ensures Inv(OnHandle(st))
  {
    match st.messages[0]
    case Available(s) =>
      if st.app.inFlight == s {
        IgnoredInv(st);
        assert st.requests + [] == st.requests;
      } else {
        NotedInv(st, s);
        hide Inv, Between;
        if st.app.inFlight < 0 {
          StartInv(Noted(st, s));
        } else {
          assert st.requests + [] == st.requests;
        }
      }
    case Packet(origin, bytes) =>
      assert origin == st.app.inFlight;
      FiledBetween(st, bytes);
      hide Inv, Between;
      StartInv(Filed(st, bytes));
  }

  lemma {:induction false} RunInv(st: State, es: seq<Event>)
    requires Inv(st) && Runs(st, es)
    ensures Inv(Run(st, es))
    decreases |es|
  {
    if es != [] {
      hide Inv, OnHandle;
      match es[0] {
        case Network(s, bytes, notify) => NetworkInv(st, s, bytes, notify);
        case Serve => ServeInv(st);
        case Handle => HandleInv(st);
      }
      RunInv(Step(st, es[0]), es[1..]);
    }
  }

  lemma StartsInv()
    ensures Inv(START)
  {
  }

  // ---- What the runs show ----

  /**
   * No wakeup is lost. In every run at most one recv is outstanding, none finds its stream empty, the packet
   * on its way up is of the stream it will be filed under, and a stream with unread bytes is announced by a
   * message still to come, waits, or is the one asked for. Per stream no byte is lost, doubled or misplaced.
   */
  lemma NoLostWakeup(es: seq<Event>)
    requires Runs(START, es)
    ensures var st := Run(START, es);
      && |st.requests| <= 1
      && (forall i :: 0 <= i < |st.messages| && st.messages[i].Packet? ==> st.messages[i].origin == st.app.inFlight && st.requests == [])
      && (forall i, j :: 0 <= i < j < |st.messages| && st.messages[i].Packet? ==> !st.messages[j].Packet?)
      && (forall s :: s in st.requests ==> At(st.unread, s) != [])
      && (forall s :: At(st.unread, s) != [] ==> Available(s) in st.messages || s in st.app.pending || s in st.requests)
      && (forall s :: Concat(FiledOn(st.app, s)) + InFlight(st.messages, s) + At(st.unread, s) == At(st.arrived, s))
  {
    StartsInv();
    RunInv(START, es);
    var st := Run(START, es);
    forall s | At(st.unread, s) != []
      ensures Available(s) in st.messages || s in st.app.pending || s in st.requests
    {
      if Announced(st.messages, s) {
        var i: nat :| i < |st.messages| && st.messages[i] == Available(s) && !DrainedAfter(st.messages, i, s);
      }
    }
  }

  /** When nothing is on its way in either direction, all that ever arrived is filed, stream by stream. */
  lemma QuietMeansAllReceived(es: seq<Event>)
    requires Runs(START, es) && Run(START, es).messages == [] && Run(START, es).requests == []
    ensures var st := Run(START, es);
      st.app.inFlight == NONE && forall s :: Concat(FiledOn(st.app, s)) == At(st.arrived, s)
  {
    StartsInv();
    RunInv(START, es);
    QuietState(Run(START, es));
  }

  lemma QuietState(st: State)
    requires Inv(st) && st.messages == [] && st.requests == []
    ensures st.app.inFlight == NONE && forall s :: Concat(FiledOn(st.app, s)) == At(st.arrived, s)
  {
    forall s
      ensures Concat(FiledOn(st.app, s)) == At(st.arrived, s)
    {
      assert InFlight(st.messages, s) == [] && At(st.unread, s) == [];
      assert Concat(FiledOn(st.app, s)) + [] + [] == Concat(FiledOn(st.app, s));
    }
  }

  // ---- It comes to rest ----

  function Weight(ms: seq<Message>): nat {
    if ms == [] then 0 else (if ms[0].Available? then 4 else 1) + Weight(ms[1..])
  }

  /** How far the pump is from having nothing left to do. */
  function Distance(st: State): nat {
    Weight(st.messages) + 3 * |st.app.pending| + 2 * |st.requests|
  }

  lemma {:induction false} WeightAppend(ms: seq<Message>, m: Message)
    ensures Weight(ms + [m]) == Weight(ms) + if m.Available? then 4 else 1
  {
    if ms == [] {
      assert [m][1..] == [];
    } else {
      assert (ms + [m])[1..] == ms[1..] + [m];
      WeightAppend(ms[1..], m);
    }
  }

  /** Without new data every step brings the pump nearer to rest: there are no wakeups for ever. */
  lemma StepComesNearer(st: State, e: Event)
    requires Inv(st) && Enabled(st, e) && !e.Network?
    ensures Distance(Step(st, e)) < Distance(st)
  {
    hide Inv, Weight;
    match e
    case Serve =>
      ServedStreamHasBytes(st);
      WeightAppend(st.messages, Packet(st.app.inFlight, st.unread[st.app.inFlight]));
    case Handle =>
      WeightTail(st.messages);
      HandleNearer(st.app, st.messages[0]);
  }

  lemma WeightTail(ms: seq<Message>)
    requires ms != []
    ensures Weight(ms) == Weight(ms[1..]) + if ms[0].Available? then 4 else 1
  {
  }

  lemma HandleNearer(app: App, m: Message)
    ensures var (a, issued) := match m
        case Available(s) => OnAvailable(app, s)
        case Packet(_, bytes) => OnPacket(app, bytes);
      3 * |a.pending| + 2 * |issued| < 3 * |app.pending| + if m.Available? then 4 else 1
  {
    hide StartNext;
    match m
    case Available(s) =>
      assert |app.pending + {s}| <= |app.pending| + 1;
      StartNearer(app.(pending := app.pending + {s}));
    case Packet(_, bytes) =>
      StartNearer(app.(inFlight := NONE, filed := app.filed[app.inFlight := FiledOn(app, app.inFlight) + [bytes]]));
  }

  lemma StartNearer(app: App)
    ensures var (a, issued) := StartNext(app);
      3 * |a.pending| + 2 * |issued| <= 3 * |app.pending|
  {
    if exists s :: s in app.pending {
      var s := Least(app.pending);
      assert |app.pending - {s}| == |app.pending| - 1;
    }
  }
}
