/**
  A guest that shrinks its window below what it holds: the host's two bytes have reached it, but a late
  ack of none of them leaves the flow with a window of one, and no round ever gets it further.
 */
module ShrunkExample {
  import opened Words
  import opened TcpModel
  import opened TcpInvariant
  import opened TcpDelivery
  import opened TcpLiveness
  import opened EndToEnd
  import opened Recovery
  import opened Windows
  import opened Rounds
  import opened Examples

  /** An ack of nothing, sent before the bytes arrived, with a window of one. */
  const LATE_ACK := GuestAck(ISN + 1)

  const SHRINKING := [Handle(CONNECTED), Handle(READABLE), Deliver(true), Deliver(true), Handle(LATE_ACK)]

  function Begin(): (sys: System)
    ensures Inv(sys.c)
  {
    Fresh(0, 2, None, None, 0)
  }

  /** The fields the example turns on. */
  ghost predicate Flowing(c: Conn, sent: nat, window: nat, queue: seq<byte>) {
    && c.gone.None? && c.t.state.Established? && c.t.hostFin.NotSent? && !c.t.hostEof
    && c.t.guestWscale == None && c.t.guestMss == 536 && c.t.seqUna == ISN + 1 && c.t.lastProgress == 0
    && c.t.sentUnacked == sent && c.t.guestWindow == window && c.t.queue == queue && c.io.fromHost == queue
  }

  /** The SYN-ACK, and then the data in one frame. */
  ghost predicate SynAckOnly(tap: seq<Segment>) { |tap| == 1 && tap[0].payload == [] && tap[0].seqno == ISN }

  ghost predicate OneFrame(tap: seq<Segment>) {
    |tap| == 2 && tap[0].payload == [] && tap[0].seqno == ISN && tap[1].payload == [7, 9] && tap[1].seqno == ISN + 1
  }

  ghost predicate HasGot(sys: System, received: seq<byte>, next: nat) {
    sys.received == received && sys.ahead == map[] && sys.next == next
  }

  // ---------------------------------------------------------------------------------------------
  // The flow's part of each move
  // ---------------------------------------------------------------------------------------------

  lemma Connect()
    ensures var c := Step(Begin().c, false, CONNECTED);
            Flowing(c, 0, 2, []) && SynAckOnly(c.io.tap)
  {
  }

  lemma SendBoth(c: Conn)
    requires Flowing(c, 0, 2, [7, 9]) && SynAckOnly(c.io.tap)
    ensures var c' := SendNew(c, 2, true, false, 0);
            Flowing(c', 2, 2, [7, 9]) && OneFrame(c'.io.tap)
  {
    assert [7, 9][0..2] == [7, 9];
    CutOne([7, 9], FramingOf(c, 2, false), 0);
  }

  lemma ReadBoth(c: Conn)
    requires Inv(c) && Flowing(c, 0, 2, []) && SynAckOnly(c.io.tap)
    ensures var c' := Step(c, false, READABLE);
            Flowing(c', 2, 2, [7, 9]) && OneFrame(c'.io.tap)
  {
    var c1 := c.(t := c.t.(pollArmed := false));
    var c2 := Fill(c1, Data([7, 9])).0;
    assert Flowing(c2, 0, 2, [7, 9]) && SynAckOnly(c2.io.tap);
    SendBoth(c2);
  }

  lemma AckLate(c: Conn)
    requires Inv(c) && Flowing(c, 2, 2, [7, 9])
    ensures Flowing(Step(c, false, LATE_ACK), 2, 1, [7, 9])
  {
    UploadNothing(c.(t := AckFromGuest(c.t, LATE_ACK.header, true, 0)), LATE_ACK.header);
  }

  lemma ReceiveBoth(s: Segment)
    requires s.payload == [7, 9] && s.seqno == ISN + 1
    ensures Receive([], map[], s) == [7, 9] && Kept([], map[], s, true) == map[]
  {
    assert [] + [7, 9][0..] == [7, 9];
  }

  // ---------------------------------------------------------------------------------------------
  // The run
  // ---------------------------------------------------------------------------------------------

  lemma RunSystemAppend(sys: System, tso: bool, moves: seq<Move>, m: Move)
    requires Inv(sys.c)
    ensures RunSystem(sys, tso, moves + [m]) == Next(RunSystem(sys, tso, moves), tso, m)
  {
    assert (moves + [m])[..|moves|] == moves;
  }

  /** One more move; `sys` is where the shorter run ends. */
  lemma Extend(moves: seq<Move>, n: nat, sys: System)
    requires n < |moves| && RunSystem(Begin(), false, moves[..n]) == sys
    ensures Inv(sys.c) && RunSystem(Begin(), false, moves[..n + 1]) == Next(sys, false, moves[n])
  {
    RunSystemAppend(Begin(), false, moves[..n], moves[n]);
    assert moves[..n + 1] == moves[..n] + [moves[n]];
  }

  lemma Reach1(moves: seq<Move>)
    requires moves == SHRINKING
    ensures var sys := RunSystem(Begin(), false, moves[..1]);
            HasGot(sys, [], 0) && Flowing(sys.c, 0, 2, []) && SynAckOnly(sys.c.io.tap)
  {
    Extend(moves, 0, Begin());
    Connect();
  }

  lemma Reach2(moves: seq<Move>)
    requires moves == SHRINKING
    ensures var sys := RunSystem(Begin(), false, moves[..2]);
            HasGot(sys, [], 0) && Flowing(sys.c, 2, 2, [7, 9]) && OneFrame(sys.c.io.tap)
  {
    Reach1(moves);
    ExtendByRead(moves, RunSystem(Begin(), false, moves[..1]));
  }

  lemma ExtendByRead(moves: seq<Move>, sys: System)
    requires |moves| > 1 && moves[1] == Handle(READABLE) && RunSystem(Begin(), false, moves[..1]) == sys
    requires Inv(sys.c) && HasGot(sys, [], 0) && Flowing(sys.c, 0, 2, []) && SynAckOnly(sys.c.io.tap)
    ensures var sys' := RunSystem(Begin(), false, moves[..2]);
            HasGot(sys', [], 0) && Flowing(sys'.c, 2, 2, [7, 9]) && OneFrame(sys'.c.io.tap)
  {
    Extend(moves, 1, sys);
    ReadBoth(sys.c);
  }

  lemma DeliverFirst(sys: System)
    requires Inv(sys.c) && HasGot(sys, [], 0) && OneFrame(sys.c.io.tap)
    ensures var sys' := Next(sys, false, Deliver(true));
            HasGot(sys', [], 1) && sys'.c == sys.c
  {
  }

  lemma DeliverSecond(sys: System)
    requires Inv(sys.c) && HasGot(sys, [], 1) && OneFrame(sys.c.io.tap)
    ensures var sys' := Next(sys, false, Deliver(true));
            HasGot(sys', [7, 9], 2) && sys'.c == sys.c
  {
    ReceiveBoth(sys.c.io.tap[1]);
  }

  lemma Reach3(moves: seq<Move>)
    requires moves == SHRINKING
    ensures var sys := RunSystem(Begin(), false, moves[..3]);
            HasGot(sys, [], 1) && Flowing(sys.c, 2, 2, [7, 9]) && OneFrame(sys.c.io.tap)
  {
    Reach2(moves);
    Extend(moves, 2, RunSystem(Begin(), false, moves[..2]));
    DeliverFirst(RunSystem(Begin(), false, moves[..2]));
  }

  lemma Reach4(moves: seq<Move>)
    requires moves == SHRINKING
    ensures var sys := RunSystem(Begin(), false, moves[..4]);
            HasGot(sys, [7, 9], 2) && Flowing(sys.c, 2, 2, [7, 9])
  {
    Reach3(moves);
    Extend(moves, 3, RunSystem(Begin(), false, moves[..3]));
    DeliverSecond(RunSystem(Begin(), false, moves[..3]));
  }

  lemma Reach5(moves: seq<Move>)
    requires moves == SHRINKING
    ensures var sys := RunSystem(Begin(), false, moves);
            HasGot(sys, [7, 9], 2) && Flowing(sys.c, 2, 1, [7, 9])
  {
    Reach4(moves);
    ReachLast(moves, RunSystem(Begin(), false, moves[..4]));
  }

  lemma ReachLast(moves: seq<Move>, sys: System)
    requires |moves| == 5 && moves[4] == Handle(LATE_ACK) && RunSystem(Begin(), false, moves[..4]) == sys
    requires HasGot(sys, [7, 9], 2) && Flowing(sys.c, 2, 2, [7, 9])
    ensures var sys' := RunSystem(Begin(), false, moves);
            HasGot(sys', [7, 9], 2) && Flowing(sys'.c, 2, 1, [7, 9])
  {
    assert moves[..5] == moves;
    ExtendByAck(moves, sys, RunSystem(Begin(), false, moves));
  }

  lemma ExtendByAck(moves: seq<Move>, sys: System, sys': System)
    requires |moves| > 4 && moves[4] == Handle(LATE_ACK) && RunSystem(Begin(), false, moves[..4]) == sys
    requires RunSystem(Begin(), false, moves[..5]) == sys'
    requires HasGot(sys, [7, 9], 2) && Flowing(sys.c, 2, 2, [7, 9])
    ensures HasGot(sys', [7, 9], 2) && Flowing(sys'.c, 2, 1, [7, 9])
  {
    Extend(moves, 4, sys);
    AckLate(sys.c);
  }

  /** The guest is well-behaved: its only ack names a position it has passed, and it sends nothing. */
  lemma MoveIsFair(i: nat, sys: System)
    requires i < |SHRINKING| && (i == 4 ==> HasGot(sys, [7, 9], 2))
    ensures WellBehaved(sys, SHRINKING[i], [])
  {
    if i == 4 {
      assert Position(LATE_ACK.header.ackno, 0);
      assert StreamSent(LATE_ACK.header, [], [], sys.c.io.guestIsn, |sys.c.io.toHost|, 0);
    }
  }

  lemma RunIsFair(moves: seq<Move>)
    requires moves == SHRINKING
    ensures WellBehavedRun(Begin(), false, moves, [])
  {
    Reach4(moves);
    forall i | 0 <= i < |moves| ensures WellBehaved(RunSystem(Begin(), false, moves[..i]), moves[i], []) {
      MoveIsFair(i, RunSystem(Begin(), false, moves[..i]));
    }
  }

  lemma EdgeMoves(moves: seq<Move>)
    requires moves == SHRINKING
    ensures !KeepsEdgeRun(Begin(), false, moves)
  {
    Reach4(moves);
    AckLate(RunSystem(Begin(), false, moves[..4]).c);
    assert !KeepsEdge(RunSystem(Begin(), false, moves[..4]), false, moves[4]);
  }

  lemma ReachGood(moves: seq<Move>)
    requires moves == SHRINKING
    ensures Good(RunSystem(Begin(), false, moves))
  {
    RunIsFair(moves);
    RunGood(Begin(), false, moves, []);
  }

  /**
    A run with an honest guest, whose late ack moves the edge of its window left.  After it the guest holds
    both bytes, none of them is acked, and the flow is stalled with a window that does not cover them.
   */
  lemma WindowShrinks()
    ensures WellBehavedRun(Begin(), false, SHRINKING, []) && !KeepsEdgeRun(Begin(), false, SHRINKING)
    ensures var sys := RunSystem(Begin(), false, SHRINKING);
            sys.received == [7, 9] && AckedBytes(sys.c) == 0 && Shrunk(sys, 1000)
  {
    RunIsFair(SHRINKING);
    EdgeMoves(SHRINKING);
    ReachGood(SHRINKING);
    Reach5(SHRINKING);
  }

  /** No number of rounds with that window moves the acknowledged position. */
  lemma NeverAcked(states: seq<System>, keep: Choice, windows: seq<u16>, times: seq<nat>)
    requires Played(states, false, keep, windows, times) && |windows| > 0 && times[0] >= 1000
    requires states[0] == RunSystem(Begin(), false, SHRINKING) && forall i :: 0 <= i < |windows| ==> windows[i] == 1
    ensures AckedBytes(states[|windows|].c) == 0
  {
    StuckAt(states[0], windows, times[0]);
    ShrunkForever(states, false, keep, windows, times, 0);
  }

  lemma StuckAt(sys: System, windows: seq<u16>, now: nat)
    requires sys == RunSystem(Begin(), false, SHRINKING) && now >= 1000
    requires forall i :: 0 <= i < |windows| ==> windows[i] == 1
    ensures Shrunk(sys, now) && Sticks(sys, windows) && AckedBytes(sys.c) == 0
  {
    WindowShrinks();
    Reach5(SHRINKING);
  }
}
