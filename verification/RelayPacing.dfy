/** What one flush of a relay connection writes, and when it ends. */
module RelayPacing {
  import opened MoqFraming
  import opened SendQueue
  import opened Relay
  import Pacing

  /** From `s` to `r` only the connection's tally grows, by exactly what is written, and what is written stays
      within one chunk of the limit. */
  ghost predicate Paced(s: State, r: State, sock: int, qlen: int) {
    && r.cfg == s.cfg
    && 0 <= r.Written(sock) - s.Written(sock) == Pacing.DataBytes(r.ch.wire) - Pacing.DataBytes(s.ch.wire)
    && (forall n :: n != sock ==> r.Written(n) == s.Written(n))
    && (s.Written(sock) < r.Written(sock) ==> qlen + r.Written(sock) <= s.cfg.queueLimit - 1 + s.cfg.chunk)
  }

  lemma PacedTransitive(a: State, b: State, c: State, sock: int, qlen: int)
    requires Paced(a, b, sock, qlen) && Paced(b, c, sock, qlen)
    ensures Paced(a, c, sock, qlen)
  {
  }

  lemma QuietPaced(s: State, r: State, sock: int, qlen: int)
    requires r.cfg == s.cfg && r.eventBytes == s.eventBytes && Pacing.DataBytes(r.ch.wire) == Pacing.DataBytes(s.ch.wire)
    ensures Paced(s, r, sock, qlen)
  {
  }

  lemma WritePaced(s: State, sock: int, qlen: int)
    requires Sound(s) && s.Queue(sock) != [] && qlen + s.Written(sock) < s.cfg.queueLimit
    ensures Paced(s, Write(s, sock), sock, qlen)
  {
    assert Unfinished(s.Queue(sock)[0]);
    WriteFrontShape(s.ch, sock, s.cfg.chunk);
    SliceCarries(s.Queue(sock)[0], s.cfg.chunk);
    Pacing.DataBytesAppend(s.ch.wire, FrontCommand(s.ch, sock, s.cfg.chunk));
    hide WriteFront, Pacing.DataBytes;
  }

  lemma GiveUpPaced(s: State, sock: int, code: int, qlen: int)
    requires s.Queue(sock) != []
    ensures Paced(s, GiveUp(s, sock, 0, code), sock, qlen)
  {
    hide Pacing.DataBytes, Remove;
    Pacing.DataBytesAppend(s.ch.wire, Reset(s.Queue(sock)[0].stream, code));
  }

  lemma FlushStepPaced(s: State, sock: int, now: int, qlen: int)
    requires Sound(s) && s.Queue(sock) != [] && qlen + s.Written(sock) < s.cfg.queueLimit
    ensures Paced(s, FlushStep(s, sock, now), sock, qlen)
  {
    var item := s.Queue(sock)[0];
    if item.key in s.ch.reset {
      QuietPaced(s, TakeOut(s, sock, 0), sock, qlen);
    } else if item.Stale(now) {
      GiveUpPaced(s, sock, MOQ_ERR_DELIVERY_TIMEOUT, qlen);
    } else {
      WritePaced(s, sock, qlen);
    }
    hide Paced, TakeOut, GiveUp, Write;
  }

  lemma {:induction false} FlushLoopPaced(s: State, sock: int, now: int, qlen: int)
    requires Sound(s)
    ensures var r := FlushLoop(s, sock, now, qlen);
      && Paced(s, r, sock, qlen)
      && (sock in r.blocked || r.Queue(sock) == [] || qlen + r.Written(sock) >= r.cfg.queueLimit)
    decreases Work(s.Queue(sock))
  {
    hide FlushStep, Work, Paced;
    if sock in s.blocked || s.Queue(sock) == [] || qlen + s.Written(sock) >= s.cfg.queueLimit {
      QuietPaced(s, s, sock, qlen);
    } else {
      var t := FlushStep(s, sock, now);
      FlushStepShrinks(s, sock, now);
      FlushStepPaced(s, sock, now, qlen);
      FlushLoopPaced(t, sock, now, qlen);
      PacedTransitive(s, t, FlushLoop(t, sock, now, qlen), sock, qlen);
    }
  }

  /**
   * A flush ends only when QUIC is blocked, when the connection's queue is at its limit, or when nothing is
   * left. With what QUIC held before, what the connection was given at this simulation time never exceeds the
   * limit by a whole chunk; the tallies of other connections stay as they were.
   */
  lemma FlushPaced(s: State, sock: int, now: int, qlen: int)
    requires Sound(s)
    ensures var before, r := EnterEvent(s, now), Flush(s, sock, now, qlen);
      && Paced(before, r, sock, qlen)
      && (sock in r.blocked || r.Queue(sock) == [] || qlen + r.Written(sock) >= r.cfg.queueLimit)
  {
    hide FlushLoop, Paced;
    FlushLoopPaced(EnterEvent(s, now), sock, now, qlen);
  }
}
