/**
  The right edge of the guest's window, as the flow knows it.  Nothing the flow ever sends lies beyond it,
  so over every run in which the edge does not move left the guest stays within its window.
 */
module Windows {
  import opened Words
  import opened TcpModel
  import opened TcpInvariant
  import opened TcpLabels
  import opened TcpDelivery
  import opened TcpLiveness
  import opened EndToEnd
  import opened Recovery

  /** The host-stream offset up to which the guest's window lets bytes out. */
  function Edge(c: Conn): int { AckedBytes(c) + c.t.guestWindow }

  // ---------------------------------------------------------------------------------------------
  // Nothing is sent beyond the edge
  // ---------------------------------------------------------------------------------------------

  /** From `c` to `c'` the tap grew by frames whose data ends by the edge of `c'`. */
  ghost predicate Ends(c: Conn, c': Conn) { c.io.tap <= c'.io.tap && EndBy(c'.io.tap, |c.io.tap|, Edge(c')) }

  /** The tap grew by frames without data. */
  ghost predicate Mute(c: Conn, c': Conn) { c.io.tap <= c'.io.tap && Free(c'.io.tap, |c.io.tap|, Bytes) }

  lemma MuteEnds(c: Conn, c': Conn)
    requires Mute(c, c')
    ensures Ends(c, c')
  {
  }

  lemma EndsAfter(c: Conn, c1: Conn, c2: Conn)
    requires Mute(c, c1) && Ends(c1, c2)
    ensures Ends(c, c2)
  {
    assert forall i :: |c.io.tap| <= i < |c1.io.tap| ==> c2.io.tap[i] == c1.io.tap[i];
  }

  lemma FillMute(c: Conn, recv: Recv)
    ensures Mute(c, Fill(c, recv).0) && Fill(c, recv).0.t.sentUnacked == c.t.sentUnacked
  {
  }

  lemma ForwardMute(c: Conn, budget: nat, drained: bool, tso: bool, now: nat)
    requires c.t.sentUnacked <= |c.t.queue| && c.t.guestMss > 0 && budget > 0
    requires AfterFill(c, budget, drained, tso, now).t.sentUnacked == c.t.sentUnacked
    ensures Mute(c, AfterFill(c, budget, drained, tso, now))
  {
  }

  lemma MuteTrans(c: Conn, c1: Conn, c2: Conn)
    requires Mute(c, c1) && Mute(c1, c2)
    ensures Mute(c, c2)
  {
    assert forall i :: |c.io.tap| <= i < |c1.io.tap| ==> c2.io.tap[i] == c1.io.tap[i];
  }

  /** Data that goes out is counted as in flight. */
  lemma UncountedIsMute(c: Conn, recv: Recv, tso: bool, now: nat)
    requires Inv(c) && DataToGuest(c, recv, tso, now).t.sentUnacked == c.t.sentUnacked
    ensures Mute(c, DataToGuest(c, recv, tso, now))
  {
    if MaySend(c.t) {
      var c1, drained := Fill(c, recv).0, Fill(c, recv).1;
      FillFrame(c, recv);
      FillMute(c, recv);
      ForwardMute(c1, c.t.guestWindow - c.t.sentUnacked, drained, tso, now);
      MuteTrans(c, c1, DataToGuest(c, recv, tso, now));
    }
  }

  lemma SendEnds(c: Conn, recv: Recv, tso: bool, now: nat)
    requires Inv(c) && c.gone.None?
    ensures Ends(c, DataToGuest(c, recv, tso, now))
  {
    var c' := DataToGuest(c, recv, tso, now);
    if c'.t.sentUnacked == c.t.sentUnacked {
      UncountedIsMute(c, recv, tso, now);
      MuteEnds(c, c');
    } else {
      DataToGuestSends(c, recv, tso, now);
      ContiguousEnds(c'.io.tap[|c.io.tap|..], SendOffset(c));
      EndBySuffix(c'.io.tap, |c.io.tap|, SendOffset(c'));
      DataToGuestFrame(c, recv, tso, now);
    }
  }

  lemma UploadMute(c: Conn, h: Header, payload: seq<byte>, accept: nat)
    ensures Mute(c, Upload(c, h, payload, accept))
  {
  }

  lemma DeliverEnds(c: Conn, h: Header, payload: seq<byte>, accept: nat, recv: Recv, tso: bool, now: nat)
    requires Inv(c) && c.gone.None? && c.t.state.Established?
    ensures Ends(c, MaybeClose(DataToGuest(Upload(c, h, payload, accept), recv, tso, now)))
  {
    var c1 := Upload(c, h, payload, accept);
    UploadKeeps(c, h, payload, accept);
    UploadMute(c, h, payload, accept);
    UploadGone(c, h, payload, accept);
    SendEnds(c1, recv, tso, now);
    EndsAfter(c, c1, DataToGuest(c1, recv, tso, now));
  }

  lemma GuestEnds(c: Conn, h: Header, payload: seq<byte>, accept: nat, recv: Recv, tso: bool, now: nat)
    requires Inv(c) && c.gone.None?
    ensures Ends(c, HandleGuest(c, h, payload, accept, recv, tso, now))
  {
    if !h.flags.rst && c.t.state.Established? && !h.flags.syn {
      if h.flags.ack {
        AckKeeps(c, h, payload == [], now);
        AckKeepsState(c.t, h, payload == [], now);
        DeliverEnds(c.(t := AckFromGuest(c.t, h, payload == [], now)), h, payload, accept, recv, tso, now);
      } else {
        DeliverEnds(c, h, payload, accept, recv, tso, now);
      }
    }
  }

  lemma ReadyEnds(c: Conn, pollErr: bool, pollHup: bool, sockErr: bool, recv: Recv, tso: bool, now: nat)
    requires Inv(c) && c.gone.None?
    ensures Ends(c, HandleReady(c, pollErr, pollHup, sockErr, recv, tso, now))
  {
    SendEnds(c.(t := c.t.(pollArmed := false)), recv, tso, now);
  }

  lemma TimerEnds(c: Conn, recv: Recv, tso: bool, now: nat)
    requires Inv(c) && c.gone.None?
    ensures Ends(c, HandleTimer(c, recv, tso, now))
  {
    var f := FlushAck(c);
    FlushKeeps(c);
    StaleEnds(f, recv, tso, now);
    EndsAfter(c, f, HandleStale(f, recv, tso, now));
  }

  lemma StaleEnds(c: Conn, recv: Recv, tso: bool, now: nat)
    requires Inv(c) && c.gone.None?
    ensures Ends(c, HandleStale(c, recv, tso, now))
  {
    if c.t.sentUnacked > 0 {
      ReplaceRecord(c, Rewind(c, now).t, 0);
      assert Rewind(c, now) == c.(t := Rewind(c, now).t);
      SendEnds(Rewind(c, now), recv, tso, now);
    }
  }

  /** What an event puts on the tap ends by the edge that the guest's window then has. */
  lemma StepEnds(c: Conn, tso: bool, e: Event)
    requires Inv(c)
    ensures Ends(c, Step(c, tso, e))
  {
    if c.gone.None? {
      match e
      case FromGuest(h, payload, accept, recv, now) => GuestEnds(c, h, payload, accept, recv, tso, now);
      case SocketReady(pollErr, pollHup, sockErr, recv, now) =>
        ReadyEnds(c, pollErr, pollHup, sockErr, recv, tso, now);
      case PollFailed =>
      case TimerTick(recv, now) => TimerEnds(c, recv, tso, now);
    }
  }

  // ---------------------------------------------------------------------------------------------
  // Staying within the window
  // ---------------------------------------------------------------------------------------------

  /** What the guest has, and what is on its way to it, ends within its window. */
  ghost predicate Within(sys: System) {
    Reaches(sys.received, sys.ahead, Edge(sys.c)) && EndBy(sys.c.io.tap, sys.next, Edge(sys.c))
  }

  lemma EndByJoin(tap: seq<Segment>, tap': seq<Segment>, from: nat, bound: int)
    requires tap <= tap' && EndBy(tap, from, bound) && EndBy(tap', |tap|, bound)
    ensures EndBy(tap', from, bound)
  {
    assert forall i :: 0 <= i < |tap| ==> tap'[i] == tap[i];
  }

  /** The edge of the guest's window does not move left. */
  ghost predicate KeepsEdge(sys: System, tso: bool, m: Move)
    requires Inv(sys.c)
  {
    m.Handle? ==> Edge(sys.c) <= Edge(Step(sys.c, tso, m.e))
  }

  lemma MoveWithin(sys: System, tso: bool, m: Move)
    requires Good(sys) && Within(sys) && KeepsEdge(sys, tso, m)
    ensures Within(Next(sys, tso, m))
  {
    match m
    case Handle(e) =>
      StepEnds(sys.c, tso, e);
      EndByJoin(sys.c.io.tap, Step(sys.c, tso, e).io.tap, sys.next, Edge(Step(sys.c, tso, e)));
    case Deliver(keep) => if sys.next < |sys.c.io.tap| { DeliverEffect(sys, tso, keep, Edge(sys.c)); }
    case Lose =>
  }

  ghost predicate KeepsEdgeRun(sys: System, tso: bool, moves: seq<Move>)
    requires Inv(sys.c)
  {
    forall i :: 0 <= i < |moves| ==> KeepsEdge(RunSystem(sys, tso, moves[..i]), tso, moves[i])
  }

  lemma KeepsEdgePrefix(sys: System, tso: bool, moves: seq<Move>, n: nat)
    requires Inv(sys.c) && KeepsEdgeRun(sys, tso, moves) && n <= |moves|
    ensures KeepsEdgeRun(sys, tso, moves[..n])
  {
    forall i | 0 <= i < n ensures KeepsEdge(RunSystem(sys, tso, moves[..n][..i]), tso, moves[..n][i]) {
      assert moves[..n][..i] == moves[..i];
    }
  }

  lemma {:induction false} RunWithin(sys: System, tso: bool, moves: seq<Move>, stream: seq<byte>)
    requires GoodBothWays(sys, stream) && WellBehavedRun(sys, tso, moves, stream)
    requires Within(sys) && KeepsEdgeRun(sys, tso, moves)
    ensures Within(RunSystem(sys, tso, moves))
    decreases |moves|
  {
    if moves != [] {
      var n := |moves| - 1;
      WellBehavedPrefix(sys, tso, moves, stream, n);
      KeepsEdgePrefix(sys, tso, moves, n);
      RunWithin(sys, tso, moves[..n], stream);
      RunGood(sys, tso, moves[..n], stream);
      MoveWithin(RunSystem(sys, tso, moves[..n]), tso, moves[n]);
    }
  }

  /**
    Over every run of flow, guest and tap in which the edge of the guest's window does not move left,
    whatever the guest holds and whatever is on its way to it lies within its window.
   */
  lemma StaysWithin(
    seqno: u32, window: u16, mss: Option<u16>, wscale: Option<byte>, start: nat, tso: bool, moves: seq<Move>,
    stream: seq<byte>)
    requires WellBehavedRun(Fresh(seqno, window, mss, wscale, start), tso, moves, stream)
    requires KeepsEdgeRun(Fresh(seqno, window, mss, wscale, start), tso, moves)
    ensures var sys := RunSystem(Fresh(seqno, window, mss, wscale, start), tso, moves);
            Good(sys) && Within(sys)
  {
    RunGood(Fresh(seqno, window, mss, wscale, start), tso, moves, stream);
    RunWithin(Fresh(seqno, window, mss, wscale, start), tso, moves, stream);
  }

  // ---------------------------------------------------------------------------------------------
  // Who moves the edge
  // ---------------------------------------------------------------------------------------------

  lemma DeliverKeepsWindow(c: Conn, h: Header, payload: seq<byte>, accept: nat, recv: Recv, tso: bool, now: nat)
    requires Inv(c) && c.t.state.Established?
    ensures MaybeClose(DataToGuest(Upload(c, h, payload, accept), recv, tso, now)).t.guestWindow == c.t.guestWindow
  {
    UploadKeeps(c, h, payload, accept);
    UploadWindow(c, h, payload, accept);
    DataToGuestFrame(Upload(c, h, payload, accept), recv, tso, now);
  }

  lemma UploadWindow(c: Conn, h: Header, payload: seq<byte>, accept: nat)
    ensures Upload(c, h, payload, accept).t.guestWindow == c.t.guestWindow
  {
  }

  /**
    An ack of bytes in flight, or of none, puts the edge where the guest says: at the position it names plus
    its window.
   */
  lemma AckPutsEdge(c: Conn, tso: bool, e: Event, k: nat)
    requires Inv(c) && Lag(c) == 0 && IsAck(c, e) && c.t.hostFin.NotSent?
    requires k <= c.t.sentUnacked && Position(e.header.ackno, AckedBytes(c) + k)
    ensures Edge(Step(c, tso, e)) == AckedBytes(c) + k + ScaledWindow(c.t, e.header.window)
  {
    var FromGuest(h, payload, accept, recv, now) := e;
    var c1 := c.(t := AckFromGuest(c.t, h, payload == [], now));
    AckAt(c, h, k, payload == [], now);
    AckKeeps(c, h, payload == [], now);
    AckKeepsState(c.t, h, payload == [], now);
    AckGrows(c, h, payload, accept, recv, tso, now);
    AckWindow(c.t, h, payload == [], now);
    DeliverKeepsWindow(c1, h, payload, accept, recv, tso, now);
  }

  lemma AckWindow(t: Tcp, h: Header, payloadEmpty: bool, now: nat)
    requires t.sentUnacked <= |t.queue|
    ensures AckFromGuest(t, h, payloadEmpty, now).guestWindow == ScaledWindow(t, h.window)
  {
  }

  /** Nothing else moves it. */
  lemma OthersKeepEdge(c: Conn, tso: bool, e: Event)
    requires Inv(c) && !IsAck(c, e)
    ensures Edge(Step(c, tso, e)) == Edge(c)
  {
    OtherGrows(c, tso, e);
    if c.gone.None? {
      match e
      case FromGuest(h, payload, accept, recv, now) =>
        if c.t.state.Established? { DeliverKeepsWindow(c, h, payload, accept, recv, tso, now); }
      case SocketReady(_, _, _, recv, now) => DataToGuestFrame(c.(t := c.t.(pollArmed := false)), recv, tso, now);
      case PollFailed =>
      case TimerTick(recv, now) =>
        FlushKeeps(c);
        DataToGuestFrame(Rewind(FlushAck(c), now), recv, tso, now);
    }
  }
}
