/**
  Many rounds.  With a tap that delivers and a guest that acks cumulatively and keeps its window open, a
  flow whose host has ended its stream delivers all of it and then its FIN, in finitely many rounds.
 */
module Rounds {
  import opened Words
  import opened TcpModel
  import opened TcpInvariant
  import opened TcpLabels
  import opened TcpDelivery
  import opened TcpLiveness
  import opened TcpResends
  import opened EndToEnd
  import opened Recovery
  import opened Windows

  // ---------------------------------------------------------------------------------------------
  // Rounds
  // ---------------------------------------------------------------------------------------------

  /** The guest acks all that it has, the FIN included, with its present window. */
  function Reply(sys: System, window: u16, now: nat): Event {
    var end := |sys.received| + if sys.finSeen then 1 else 0;
    FromGuest(Header(sys.c.t.seqFromGuest, Wrap32(ISN + 1 + end), ACK, window), [], 0, Again, now)
  }

  /** A tick, delivery of all that is on the tap, and the guest's reply. */
  function Round(sys: System, tso: bool, keep: Choice, window: u16, now: nat): (done: System)
    requires Inv(sys.c)
    ensures Inv(done.c)
  {
    var done := AfterTick(sys, tso, keep, Again, now);
    StepKeeps(done.c, tso, Reply(done, window, now));
    Next(done, tso, Handle(Reply(done, window, now)))
  }

  ghost predicate IsRound(before: System, tso: bool, keep: Choice, window: u16, now: nat, after: System) {
    Inv(before.c) && after == Round(before, tso, keep, window, now)
  }

  /** Rounds one after the other, more than a timeout apart; `states` are what they start from and end in. */
  ghost predicate Played(states: seq<System>, tso: bool, keep: Choice, windows: seq<u16>, times: seq<nat>) {
    && |states| == |windows| + 1 && |times| == |windows|
    && (forall i :: 0 <= i < |windows| ==> IsRound(states[i], tso, keep, windows[i], times[i], states[i + 1]))
    && (forall i :: 0 <= i < |windows| - 1 ==> times[i] + RTO < times[i + 1])
  }

  // ---------------------------------------------------------------------------------------------
  // One reply
  // ---------------------------------------------------------------------------------------------

  lemma ReplyStep(sys: System, tso: bool, window: u16, now: nat)
    requires Inv(sys.c) && sys.c.gone.None? && sys.c.t.state.Established?
    ensures var e := Reply(sys, window, now);
            var c := sys.c.(t := AckFromGuest(sys.c.t, e.header, true, now));
            Step(sys.c, tso, e) == MaybeClose(DataToGuest(c, Again, tso, now))
  {
    var e := Reply(sys, window, now);
    UploadNothing(sys.c.(t := AckFromGuest(sys.c.t, e.header, true, now)), e.header);
  }

  lemma ScaledPositive(window: u16, wscale: Option<nat>)
    requires window > 0
    ensures Scaled(window, wscale) > 0
  {
    var scale := if wscale.Some? then wscale.value else 0;
    ShiftMonotone(0, scale);
    Product(window, Shift(scale));
  }

  lemma Product(a: nat, b: nat)
    requires a > 0 && b > 0
    ensures a * b > 0
  {
  }

  /** The record after an ack that releases everything in flight. */
  ghost predicate AllAcked(t: Tcp, r: Tcp, window: u16) {
    && t.sentUnacked <= |t.queue| && r.queue == t.queue[t.sentUnacked..]
    && r.sentUnacked == 0 && r.guestWindow == ScaledWindow(t, window)
    && r.hostFin == t.hostFin && r.hostEof == t.hostEof && r.state == t.state
  }

  lemma AckOfAll(t: Tcp, h: Header, now: nat)
    requires t.sentUnacked <= |t.queue| && t.sentUnacked > 0 && Wrap32(h.ackno - t.seqUna) == t.sentUnacked
    ensures AllAcked(t, AckFromGuest(t, h, true, now), h.window)
  {
  }

  lemma AckOfAllSent(c: Conn, h: Header, now: nat)
    requires Inv(c) && Lag(c) == 0 && c.t.sentUnacked > 0 && Wrap32(ISN + 1 + SendOffset(c)) == h.ackno
    ensures AllAcked(c.t, AckFromGuest(c.t, h, true, now), h.window)
  {
    NamesOnly(h.ackno, c.t.seqUna, c.t.sentUnacked);
    SeqOfLag(c, c.t.sentUnacked);
    AckOfAll(c.t, h, now);
  }

  /** With everything acked and the host's stream at its end: the rest goes out, or the FIN. */
  lemma SendRest(c: Conn, tso: bool, now: nat)
    requires Inv(c) && c.gone.None? && c.t.state.Established? && c.t.hostFin.NotSent? && c.t.hostEof
    requires c.t.sentUnacked == 0 && c.t.guestWindow > 0
    ensures var c' := DataToGuest(c, Again, tso, now);
            && c'.gone.None? && c'.t.lastProgress == now && c'.t.queue == c.t.queue && c'.io.fromHost == c.io.fromHost
            && c'.t.guestWindow == c.t.guestWindow && c'.t.state.Established? && c'.t.hostEof
            && (if c.t.queue == [] then c'.t.hostFin.Sent? else c'.t.hostFin.NotSent? && c'.t.sentUnacked > 0)
  {
  }

  // ---------------------------------------------------------------------------------------------
  // Staying within the window
  // ---------------------------------------------------------------------------------------------

  lemma {:induction false} DeliverWithin(sys: System, tso: bool, keep: Choice)
    requires Good(sys) && Within(sys)
    ensures Within(DeliverAll(sys, tso, keep))
    decreases |sys.c.io.tap| - sys.next
  {
    if sys.next < |sys.c.io.tap| {
      MoveWithin(sys, tso, Deliver(keep(sys.next)));
      var sys' := DeliverOne(sys, tso, keep);
      DeliverWithin(sys', tso, keep);
    }
  }

  /** A tick and delivery keep the guest within its window. */
  lemma TickWithin(sys: System, tso: bool, keep: Choice, now: nat)
    requires Good(sys) && Within(sys)
    ensures var done := AfterTick(sys, tso, keep, Again, now);
            Good(done) && Within(done) && done.next == |done.c.io.tap|
  {
    var tick := TimerTick(Again, now);
    OthersKeepEdge(sys.c, tso, tick);
    HandleGood(sys, tso, tick);
    MoveWithin(sys, tso, Handle(tick));
    DeliverWithin(Next(sys, tso, Handle(tick)), tso, keep);
    DeliverAllGood(Next(sys, tso, Handle(tick)), tso, keep);
  }

  // ---------------------------------------------------------------------------------------------
  // A round of a flow whose host has ended its stream
  // ---------------------------------------------------------------------------------------------

  /** Data is in flight and the guest is within its window ... */
  ghost predicate Sending(sys: System, now: nat) {
    Good(sys) && Stalled(sys.c, now) && Within(sys) && sys.c.t.hostEof
  }

  /** ... or the FIN is. */
  ghost predicate Ending(sys: System, now: nat) { Good(sys) && FinStalled(sys.c, now) }

  ghost predicate OnTheWay(sys: System, now: nat) { Sending(sys, now) || Ending(sys, now) }

  lemma HandleReplyGood(sys: System, tso: bool, window: u16, now: nat)
    requires Good(sys)
    ensures Good(Next(sys, tso, Handle(Reply(sys, window, now))))
  {
    var e := Reply(sys, window, now);
    assert Position(e.header.ackno, |sys.received| + if sys.finSeen then 1 else 0);
    HandleGood(sys, tso, e);
  }

  /** After a reply that acked everything sent: the rest is on its way within the window, or the FIN is. */
  ghost predicate Resumed(c: Conn, c': Conn, now: nat) {
    && c'.gone.None? && c'.t.state.Established? && c'.t.lastProgress == now && c'.t.hostEof && c'.t.guestWindow > 0
    && AckedBytes(c') == SendOffset(c) && |c'.t.queue| == |c.t.queue| - c.t.sentUnacked
    && (c'.t.hostFin.Sent?
        || (c'.t.hostFin.NotSent? && c'.t.sentUnacked > 0
            && EndBy(c'.io.tap, |c.io.tap|, Edge(c'))))
  }

  lemma SendRestResumes(c0: Conn, c: Conn, tso: bool, now: nat)
    requires Inv(c) && c.gone.None? && c.t.state.Established? && c.t.hostFin.NotSent? && c.t.hostEof
    requires c.t.sentUnacked == 0 && c.t.guestWindow > 0 && c.io.tap == c0.io.tap
    requires AckedBytes(c) == SendOffset(c0) && |c.t.queue| == |c0.t.queue| - c0.t.sentUnacked
    ensures Resumed(c0, MaybeClose(DataToGuest(c, Again, tso, now)), now)
  {
    SendRest(c, tso, now);
    SendEnds(c, Again, tso, now);
  }

  lemma AckResumes(c: Conn, tso: bool, h: Header, now: nat)
    requires Inv(c) && c.gone.None? && c.t.state.Established? && c.t.hostFin.NotSent? && c.t.hostEof
    requires Lag(c) == 0 && c.t.sentUnacked > 0 && Wrap32(ISN + 1 + SendOffset(c)) == h.ackno && h.window > 0
    ensures Resumed(c, MaybeClose(DataToGuest(c.(t := AckFromGuest(c.t, h, true, now)), Again, tso, now)), now)
  {
    AckOfAllSent(c, h, now);
    AckKeeps(c, h, true, now);
    ScaledPositive(h.window, c.t.guestWscale);
    SendRestResumes(c, c.(t := AckFromGuest(c.t, h, true, now)), tso, now);
  }

  /** The guest holds exactly what was sent, and nothing behind a gap. */
  ghost predicate HasSent(sys: System) {
    |sys.received| == SendOffset(sys.c) && Reaches(sys.received, sys.ahead, SendOffset(sys.c))
  }

  /** The reply after which everything sent is acked, and the rest or the FIN goes out. */
  lemma ReplyAdvances(sys: System, tso: bool, window: u16, now: nat)
    requires Good(sys) && sys.c.gone.None? && sys.c.t.state.Established? && sys.c.t.hostFin.NotSent? && sys.c.t.hostEof
    requires sys.next == |sys.c.io.tap| && sys.c.t.sentUnacked > 0 && HasSent(sys) && window > 0
    ensures var sys' := Next(sys, tso, Handle(Reply(sys, window, now)));
            && |sys'.c.t.queue| < |sys.c.t.queue|
            && OnTheWay(sys', now + RTO + 1)
  {
    HandleReplyGood(sys, tso, window, now);
    ReplyStep(sys, tso, window, now);
    AckResumes(sys.c, tso, Reply(sys, window, now).header, now);
    ResumedGoes(sys, Next(sys, tso, Handle(Reply(sys, window, now))), now);
  }

  lemma ResumedGoes(sys: System, sys': System, now: nat)
    requires Good(sys') && Resumed(sys.c, sys'.c, now) && sys'.received == sys.received && sys'.ahead == sys.ahead
    requires sys'.next == |sys.c.io.tap| && HasSent(sys)
    ensures OnTheWay(sys', now + RTO + 1)
  {
  }

  /** A round shortens what is left to ack, and gets to the FIN when nothing is. */
  lemma RoundSends(sys: System, tso: bool, keep: Choice, window: u16, now: nat)
    requires Sending(sys, now) && window > 0
    ensures var sys' := Round(sys, tso, keep, window, now);
            && |sys'.c.t.queue| < |sys.c.t.queue|
            && OnTheWay(sys', now + RTO + 1)
  {
    var done := AfterTick(sys, tso, keep, Again, now);
    TickDelivers(sys, tso, keep, Again, now);
    TickWithin(sys, tso, keep, now);
    TickQueue(sys.c, tso, now);
    ReplyAdvances(done, tso, window, now);
  }

  /** A tick reads nothing once the host has ended its stream. */
  lemma TickQueue(c: Conn, tso: bool, now: nat)
    requires Inv(c) && Stalled(c, now) && c.t.hostEof
    ensures var c' := HandleTimer(c, Again, tso, now);
            c'.t.hostEof && c'.t.queue == c.t.queue && c'.io.fromHost == c.io.fromHost
  {
  }

  /** A round in which the FIN is out gets it acked, with the whole stream delivered. */
  ghost predicate Finished(sys: System) { sys.c.t.hostFin.Acked? && sys.received == sys.c.io.fromHost }

  lemma RoundEnds(sys: System, tso: bool, keep: Choice, window: u16, now: nat)
    requires Ending(sys, now)
    ensures Finished(Round(sys, tso, keep, window, now))
  {
    TickDeliversFin(sys, tso, keep, Again, now);
    ReplyEnds(AfterTick(sys, tso, keep, Again, now), tso, window, now);
  }

  lemma ReplyEnds(sys: System, tso: bool, window: u16, now: nat)
    requires Good(sys) && sys.finSeen && sys.c.gone.None? && sys.c.t.state.Established? && sys.c.t.hostFin.Sent?
    ensures Finished(Next(sys, tso, Handle(Reply(sys, window, now))))
  {
    FinAckCounts(sys.c, tso, Reply(sys, window, now));
    HandleReplyGood(sys, tso, window, now);
  }

  /** The guest keeps its window open. */
  predicate AllOpen(windows: seq<u16>) { forall i :: 0 <= i < |windows| ==> windows[i] > 0 }

  /** A state that follows a round at `now` is as good at any time more than a timeout later. */
  lemma Later(sys: System, now: nat, later: nat)
    requires OnTheWay(sys, now + RTO + 1) && now + RTO < later
    ensures OnTheWay(sys, later)
  {
  }

  /** A round of many: the last, or one that leaves less to ack. */
  lemma OneOfMany(states: seq<System>, tso: bool, keep: Choice, windows: seq<u16>, times: seq<nat>, i: nat)
      returns (last: bool)
    requires Played(states, tso, keep, windows, times) && AllOpen(windows)
    requires i < |windows| && OnTheWay(states[i], times[i])
    ensures last ==> Finished(states[i + 1])
    ensures !last ==> |states[i + 1].c.t.queue| < |states[i].c.t.queue|
    ensures !last && i + 1 < |windows| ==> OnTheWay(states[i + 1], times[i + 1])
  {
    assert IsRound(states[i], tso, keep, windows[i], times[i], states[i + 1]);
    last := Ending(states[i], times[i]);
    if last {
      RoundEnds(states[i], tso, keep, windows[i], times[i]);
    } else {
      RoundSends(states[i], tso, keep, windows[i], times[i]);
      if i + 1 < |windows| { Later(states[i + 1], times[i], times[i + 1]); }
    }
  }

  lemma {:induction false} DeliverFrom(
    states: seq<System>, tso: bool, keep: Choice, windows: seq<u16>, times: seq<nat>, i: nat) returns (n: nat)
    requires Played(states, tso, keep, windows, times) && AllOpen(windows)
    requires i < |windows| && OnTheWay(states[i], times[i])
    requires |windows| - i > |states[i].c.t.queue|
    ensures i <= n <= i + |states[i].c.t.queue| + 1 && n < |states| && Finished(states[n])
    decreases |windows| - i
  {
    var last := OneOfMany(states, tso, keep, windows, times, i);
    n := i + 1;
    if !last {
      n := DeliverFrom(states, tso, keep, windows, times, i + 1);
    }
  }

  // ---------------------------------------------------------------------------------------------
  // A round that gets bytes in flight again
  // ---------------------------------------------------------------------------------------------

  /** The host has ended its stream, and nothing of it is in flight, or the window is closed. */
  predicate Paused(c: Conn) { c.t.hostFin.NotSent? && (c.t.sentUnacked == 0 || c.t.guestWindow == 0) }

  /** Between the tick and the reply nothing is in flight. */
  lemma TickPauses(c: Conn, tso: bool, now: nat)
    requires Inv(c) && c.gone.None? && c.t.hostEof && Paused(c) && c.t.lastProgress + RTO < now
    ensures var c' := HandleTimer(c, Again, tso, now);
            && c'.gone.None? && c'.t.hostFin.NotSent? && c'.t.hostEof && c'.t.sentUnacked == 0
            && c'.t.queue == c.t.queue && c'.t.guestWindow == c.t.guestWindow && c'.t.guestWscale == c.t.guestWscale
  {
  }

  /** With nothing in flight a reply, whatever it acks, sets the window; the rest goes out, or the FIN. */
  lemma Reopens(c: Conn, tso: bool, h: Header, now: nat)
    requires Inv(c) && c.gone.None? && c.t.hostEof && c.t.hostFin.NotSent? && c.t.sentUnacked == 0 && h.window > 0
    ensures var c' := MaybeClose(DataToGuest(c.(t := AckFromGuest(c.t, h, true, now)), Again, tso, now));
            && c'.gone.None? && c'.t.state.Established? && c'.t.hostEof && c'.t.lastProgress == now
            && |c'.t.queue| == |c.t.queue| && c'.t.guestWindow == ScaledWindow(c.t, h.window) > 0
            && AckedBytes(c') == AckedBytes(c) && Ends(c, c')
            && (c'.t.hostFin.Sent? || (c'.t.hostFin.NotSent? && c'.t.sentUnacked > 0))
  {
    var r := AckFromGuest(c.t, h, true, now);
    AckKeeps(c, h, true, now);
    ScaledPositive(h.window, c.t.guestWscale);
    assert r == c.t.(guestWindow := ScaledWindow(c.t, h.window));
    SendRest(c.(t := r), tso, now);
    SendEnds(c.(t := r), Again, tso, now);
  }

  /** So the guest is still within its window, if the reply takes none of it back. */
  lemma ReplyResumes(sys: System, tso: bool, window: u16, now: nat)
    requires Good(sys) && Within(sys) && sys.next == |sys.c.io.tap|
    requires sys.c.gone.None? && sys.c.t.hostEof && sys.c.t.hostFin.NotSent? && sys.c.t.sentUnacked == 0
    requires window > 0 && sys.c.t.guestWindow <= ScaledWindow(sys.c.t, window)
    ensures var sys' := Next(sys, tso, Handle(Reply(sys, window, now)));
            && |sys'.c.t.queue| == |sys.c.t.queue| && OnTheWay(sys', now + RTO + 1)
  {
    HandleReplyGood(sys, tso, window, now);
    ReplyStep(sys, tso, window, now);
    Reopens(sys.c, tso, Reply(sys, window, now).header, now);
  }

  lemma RoundResumes(sys: System, tso: bool, keep: Choice, window: u16, now: nat)
    requires Good(sys) && Within(sys) && sys.c.gone.None? && sys.c.t.hostEof && Paused(sys.c)
    requires sys.c.t.lastProgress + RTO < now && window > 0 && sys.c.t.guestWindow <= ScaledWindow(sys.c.t, window)
    ensures var sys' := Round(sys, tso, keep, window, now);
            && |sys'.c.t.queue| == |sys.c.t.queue| && OnTheWay(sys', now + RTO + 1)
  {
    TickWithin(sys, tso, keep, now);
    TickPauses(sys.c, tso, now);
    ReplyResumes(AfterTick(sys, tso, keep, Again, now), tso, window, now);
  }

  // ---------------------------------------------------------------------------------------------
  // All rounds
  // ---------------------------------------------------------------------------------------------

  /**
    From any state in which the guest is within its window, rounds with an open window deliver everything.
    While nothing is in flight the reply is not to take back any of the window.
   */
  lemma RoundsFrom(states: seq<System>, tso: bool, keep: Choice, windows: seq<u16>, times: seq<nat>) returns (n: nat)
    requires Played(states, tso, keep, windows, times) && AllOpen(windows) && |windows| > |states[0].c.t.queue| + 1
    requires Good(states[0]) && Within(states[0]) && states[0].c.gone.None? && states[0].c.t.hostEof
    requires states[0].c.t.lastProgress + RTO < times[0]
    requires Paused(states[0].c) ==> states[0].c.t.guestWindow <= ScaledWindow(states[0].c.t, windows[0])
    ensures n <= |states[0].c.t.queue| + 2 && n < |states| && Finished(states[n])
  {
    if states[0].c.t.hostFin.Acked? {
      n := 0;
    } else if Paused(states[0].c) {
      assert IsRound(states[0], tso, keep, windows[0], times[0], states[1]);
      RoundResumes(states[0], tso, keep, windows[0], times[0]);
      Later(states[1], times[0], times[1]);
      n := DeliverFrom(states, tso, keep, windows, times, 1);
    } else {
      n := DeliverFrom(states, tso, keep, windows, times, 0);
    }
  }

  /**
    Delivery in finitely many rounds.  Take any run of flow, guest and lossy tap in which the edge of the
    guest's window does not move left, and let the host have ended its stream.  Then, once the tap
    delivers and the guest acks what it has with an open window, at most one round per byte that is not
    acked yet and two more pass until the guest holds the whole stream and has acked the FIN.
   */
  lemma RoundsDeliver(
    seqno: u32, window: u16, mss: Option<u16>, wscale: Option<byte>, start: nat, tso: bool, moves: seq<Move>,
    stream: seq<byte>, states: seq<System>, keep: Choice, windows: seq<u16>, times: seq<nat>) returns (n: nat)
    requires WellBehavedRun(Fresh(seqno, window, mss, wscale, start), tso, moves, stream)
    requires KeepsEdgeRun(Fresh(seqno, window, mss, wscale, start), tso, moves)
    requires Played(states, tso, keep, windows, times) && AllOpen(windows) && |windows| > |states[0].c.t.queue| + 1
    requires states[0] == RunSystem(Fresh(seqno, window, mss, wscale, start), tso, moves)
    requires states[0].c.gone.None? && states[0].c.t.hostEof && states[0].c.t.lastProgress + RTO < times[0]
    requires Paused(states[0].c) ==> states[0].c.t.guestWindow <= ScaledWindow(states[0].c.t, windows[0])
    ensures n <= |states[0].c.t.queue| + 2 && n < |states| && Finished(states[n])
  {
    StaysWithin(seqno, window, mss, wscale, start, tso, moves, stream);
    n := RoundsFrom(states, tso, keep, windows, times);
  }

  // ---------------------------------------------------------------------------------------------
  // A closed window
  // ---------------------------------------------------------------------------------------------

  /** Bytes wait behind a closed window, and nothing is in flight. */
  ghost predicate Closed(c: Conn, now: nat) {
    && c.gone.None? && c.t.state.Established? && c.t.hostFin.NotSent? && c.t.queue != []
    && c.t.sentUnacked == 0 && c.t.guestWindow == 0 && c.t.lastProgress + RTO < now
  }

  lemma TickProbes(c: Conn, tso: bool, now: nat)
    requires Inv(c) && Closed(c, now)
    ensures var c' := HandleTimer(c, Again, tso, now);
            && |c'.io.tap| > |c.io.tap| && c'.gone.None? && c'.t.state.Established? && c'.t.hostFin.NotSent?
            && c'.t.queue == c.t.queue && c'.t.sentUnacked == 0 && AckedBytes(c') == AckedBytes(c)
            && c'.t.guestWscale == c.t.guestWscale
  {
  }

  /** The reply to a probe opens the window, and the bytes that it takes go out. */
  lemma WindowOpens(sys: System, tso: bool, window: u16, now: nat)
    requires Good(sys) && sys.c.gone.None? && sys.c.t.state.Established? && sys.c.t.hostFin.NotSent?
    requires sys.c.t.queue != [] && sys.c.t.sentUnacked == 0 && window > 0
    ensures var sys' := Next(sys, tso, Handle(Reply(sys, window, now)));
            && Good(sys') && Stalled(sys'.c, now + RTO + 1) && AckedBytes(sys'.c) == AckedBytes(sys.c)
            && sys'.c.t.guestWindow == Scaled(window, sys.c.t.guestWscale)
  {
    var h := Reply(sys, window, now).header;
    var c := sys.c.(t := AckFromGuest(sys.c.t, h, true, now));
    HandleReplyGood(sys, tso, window, now);
    ReplyStep(sys, tso, window, now);
    AckKeeps(sys.c, h, true, now);
    ScaledPositive(window, sys.c.t.guestWscale);
    ResendSends(c, Again, tso, now);
    DataToGuestFrame(c, Again, tso, now);
    DataToGuestGrows(c, Again, tso, now);
  }

  /**
    A closed window: the tick probes, and the guest's reply with an open window gets bytes in flight
    again, so that the next round recovers exactly if that window covers what the guest holds.
   */
  lemma ClosedWindowRound(sys: System, tso: bool, keep: Choice, window: u16, now: nat)
    requires Good(sys) && Closed(sys.c, now) && window > 0
    ensures var sys' := Round(sys, tso, keep, window, now);
            && |AfterTick(sys, tso, keep, Again, now).c.io.tap| > |sys.c.io.tap|
            && Good(sys') && Stalled(sys'.c, now + RTO + 1) && AckedBytes(sys'.c) == AckedBytes(sys.c)
            && sys'.c.t.guestWindow == Scaled(window, sys.c.t.guestWscale)
  {
    HandleGood(sys, tso, TimerTick(Again, now));
    TickProbes(sys.c, tso, now);
    DeliverAllGood(Next(sys, tso, Handle(TimerTick(Again, now))), tso, keep);
    WindowOpens(AfterTick(sys, tso, keep, Again, now), tso, window, now);
  }

  // ---------------------------------------------------------------------------------------------
  // A shrunk window
  // ---------------------------------------------------------------------------------------------

  /** The guest holds more than its window covers, and keeps saying so. */
  ghost predicate Shrunk(sys: System, now: nat) { Good(sys) && Stalled(sys.c, now) && !WindowCovers(sys) }

  /** An ack ahead of what is in flight changes nothing but the window. */
  lemma AheadIgnored(c: Conn, h: Header, k: nat, now: nat)
    requires Inv(c) && Lag(c) == 0 && c.t.hostFin.NotSent? && c.t.sentUnacked < k < TWO32
    requires Position(h.ackno, AckedBytes(c) + k)
    ensures AckFromGuest(c.t, h, true, now) == c.t.(guestWindow := ScaledWindow(c.t, h.window))
  {
    SeqOfLag(c, k);
    NamesOnly(h.ackno, c.t.seqUna, k);
  }

  /** With the window full and the reply ahead of it, nothing changes. */
  lemma ReplyIgnored(sys: System, tso: bool, window: u16, now: nat)
    requires Good(sys) && sys.c.gone.None? && sys.c.t.state.Established? && sys.c.t.hostFin.NotSent?
    requires !WindowCovers(sys) && sys.c.t.sentUnacked == sys.c.t.guestWindow
    requires Scaled(window, sys.c.t.guestWscale) == sys.c.t.guestWindow
    ensures Step(sys.c, tso, Reply(sys, window, now)) == sys.c
  {
    var h := Reply(sys, window, now).header;
    ReplyStep(sys, tso, window, now);
    AheadIgnored(sys.c, h, |sys.received| - AckedBytes(sys.c), now);
    assert AckFromGuest(sys.c.t, h, true, now) == sys.c.t;
  }

  lemma ShrunkTick(sys: System, tso: bool, keep: Choice, now: nat)
    requires Shrunk(sys, now)
    ensures var done := AfterTick(sys, tso, keep, Again, now);
            && Good(done) && done.c.gone.None? && done.c.t.state.Established? && done.c.t.hostFin.NotSent?
            && !WindowCovers(done) && done.c.t.sentUnacked == done.c.t.guestWindow == sys.c.t.guestWindow
            && AckedBytes(done.c) == AckedBytes(sys.c) && done.c.t.lastProgress == now
            && done.c.t.guestWscale == sys.c.t.guestWscale
  {
    HandleGood(sys, tso, TimerTick(Again, now));
    TickDelivers(sys, tso, keep, Again, now);
    DeliverAllGood(Next(sys, tso, Handle(TimerTick(Again, now))), tso, keep);
    TickScale(sys.c, tso, now);
  }

  lemma TickScale(c: Conn, tso: bool, now: nat)
    requires Inv(c)
    ensures HandleTimer(c, Again, tso, now).t.guestWscale == c.t.guestWscale
  {
    if now >= RTO && TimerDue(c.t, now - RTO) {
      FlushKeeps(c);
      DataToGuestFrame(Rewind(FlushAck(c), now), Again, tso, now);
    }
  }

  /** As long as the guest sticks to such a window, no round gets anywhere. */
  lemma ShrunkRound(sys: System, tso: bool, keep: Choice, window: u16, now: nat)
    requires Shrunk(sys, now) && Scaled(window, sys.c.t.guestWscale) == sys.c.t.guestWindow
    ensures var sys' := Round(sys, tso, keep, window, now);
            && Shrunk(sys', now + RTO + 1) && AckedBytes(sys'.c) == AckedBytes(sys.c)
            && sys'.c.t.guestWindow == sys.c.t.guestWindow && sys'.c.t.guestWscale == sys.c.t.guestWscale
  {
    ShrunkTick(sys, tso, keep, now);
    ReplyIgnored(AfterTick(sys, tso, keep, Again, now), tso, window, now);
  }

  lemma ShrunkLater(sys: System, now: nat, later: nat)
    requires Shrunk(sys, now + RTO + 1) && now + RTO < later
    ensures Shrunk(sys, later)
  {
  }

  /** The guest's replies all announce the window that the flow knows. */
  ghost predicate Sticks(sys: System, windows: seq<u16>) {
    forall i :: 0 <= i < |windows| ==> Scaled(windows[i], sys.c.t.guestWscale) == sys.c.t.guestWindow
  }

  /** ... however many there are. */
  lemma {:induction false} ShrunkForever(
    states: seq<System>, tso: bool, keep: Choice, windows: seq<u16>, times: seq<nat>, i: nat)
    requires Played(states, tso, keep, windows, times) && i < |windows|
    requires Shrunk(states[i], times[i]) && Sticks(states[i], windows)
    ensures AckedBytes(states[|windows|].c) == AckedBytes(states[i].c)
    decreases |windows| - i
  {
    assert IsRound(states[i], tso, keep, windows[i], times[i], states[i + 1]);
    ShrunkRound(states[i], tso, keep, windows[i], times[i]);
    if i + 1 < |windows| {
      ShrunkLater(states[i + 1], times[i], times[i + 1]);
      ShrunkForever(states, tso, keep, windows, times, i + 1);
    }
  }
}
