/**
  A run that loses everything the flow sent: the host's two bytes go out and the tap drops every frame.
  It meets what delivery in rounds asks for, so rounds deliver both bytes and the FIN.
 */
module LossExample {
  import opened Words
  import opened TcpModel
  import opened TcpInvariant
  import opened EndToEnd
  import opened Recovery
  import opened Windows
  import opened Rounds
  import opened Examples

  const LOSING := [Handle(CONNECTED), Handle(READABLE), Handle(HOST_EOF), Lose, Lose]

  function Begin(): (sys: System)
    ensures Inv(sys.c)
  {
    Fresh(0, 3, None, None, 0)
  }

  /** The fields the example turns on. */
  ghost predicate Sent(c: Conn, sent: nat, queue: seq<byte>, eof: bool) {
    && c.gone.None? && c.t.state.Established? && c.t.hostFin.NotSent? && c.t.hostEof == eof
    && c.t.guestWscale == None && c.t.guestMss == 536 && c.t.guestWindow == 3 && c.t.lastProgress == 0
    && !c.t.guestFin && c.t.sentUnacked == sent && c.t.queue == queue && c.io.fromHost == queue
  }

  lemma Connect()
    ensures Sent(Step(Begin().c, false, CONNECTED), 0, [], false)
  {
  }

  lemma SendBoth(c: Conn)
    requires Sent(c, 0, [7, 9], false)
    ensures Sent(SendNew(c, 3, true, false, 0), 2, [7, 9], false)
  {
    assert [7, 9][0..2] == [7, 9];
  }

  lemma ReadBoth(c: Conn)
    requires Inv(c) && Sent(c, 0, [], false)
    ensures Sent(Step(c, false, READABLE), 2, [7, 9], false)
  {
    var c1 := c.(t := c.t.(pollArmed := false));
    var c2 := Fill(c1, Data([7, 9])).0;
    assert Sent(c2, 0, [7, 9], false);
    SendBoth(c2);
  }

  lemma ReadEnd(c: Conn)
    requires Inv(c) && Sent(c, 2, [7, 9], false)
    ensures Sent(Step(c, false, HOST_EOF), 2, [7, 9], true)
  {
  }

  lemma Extend(moves: seq<Move>, n: nat, sys: System)
    requires n < |moves| && RunSystem(Begin(), false, moves[..n]) == sys
    ensures Inv(sys.c) && RunSystem(Begin(), false, moves[..n + 1]) == Next(sys, false, moves[n])
  {
    assert moves[..n + 1][..n] == moves[..n];
  }

  /** Where the run is after `n` moves: nothing has arrived. */
  ghost predicate Reached(moves: seq<Move>, n: nat, sent: nat, queue: seq<byte>, eof: bool) {
    n <= |moves|
    && var sys := RunSystem(Begin(), false, moves[..n]);
       sys.received == [] && Sent(sys.c, sent, queue, eof)
  }

  lemma Reach1(moves: seq<Move>)
    requires |moves| > 0 && moves[0] == Handle(CONNECTED)
    ensures Reached(moves, 1, 0, [], false)
  {
    Extend(moves, 0, Begin());
    Connect();
  }

  lemma Reach2(moves: seq<Move>, sys: System)
    requires |moves| > 1 && moves[1] == Handle(READABLE) && Reached(moves, 1, 0, [], false)
    requires sys == RunSystem(Begin(), false, moves[..1])
    ensures Reached(moves, 2, 2, [7, 9], false)
  {
    Extend(moves, 1, sys);
    ReadBoth(sys.c);
  }

  lemma Reach3(moves: seq<Move>, sys: System)
    requires |moves| > 2 && moves[2] == Handle(HOST_EOF) && Reached(moves, 2, 2, [7, 9], false)
    requires sys == RunSystem(Begin(), false, moves[..2])
    ensures Reached(moves, 3, 2, [7, 9], true)
  {
    Extend(moves, 2, sys);
    ReadEnd(sys.c);
  }

  lemma ReachByLoss(moves: seq<Move>, n: nat, sys: System)
    requires n < |moves| && moves[n] == Lose && Reached(moves, n, 2, [7, 9], true)
    requires sys == RunSystem(Begin(), false, moves[..n])
    ensures Reached(moves, n + 1, 2, [7, 9], true)
  {
    var sys' := RunSystem(Begin(), false, moves[..n + 1]);
    Extend(moves, n, sys);
    LossKeeps(sys, sys');
    assert sys'.received == [] && Sent(sys'.c, 2, [7, 9], true);
  }

  lemma LossKeeps(sys: System, sys': System)
    requires Inv(sys.c) && sys' == Next(sys, false, Lose)
    ensures sys'.c == sys.c && sys'.received == sys.received
  {
  }

  lemma ReachSent(moves: seq<Move>)
    requires |moves| > 2 && moves[0] == Handle(CONNECTED) && moves[1] == Handle(READABLE)
    requires moves[2] == Handle(HOST_EOF)
    ensures Reached(moves, 3, 2, [7, 9], true)
  {
    Reach1(moves);
    Reach2(moves, RunSystem(Begin(), false, moves[..1]));
    Reach3(moves, RunSystem(Begin(), false, moves[..2]));
  }

  lemma ReachLost(moves: seq<Move>)
    requires |moves| == 5 && moves[3] == moves[4] == Lose && Reached(moves, 3, 2, [7, 9], true)
    ensures Reached(moves, 5, 2, [7, 9], true)
  {
    ReachByLoss(moves, 3, RunSystem(Begin(), false, moves[..3]));
    ReachByLoss(moves, 4, RunSystem(Begin(), false, moves[..4]));
  }

  lemma ReachEnd(moves: seq<Move>)
    requires moves == LOSING
    ensures var sys := RunSystem(Begin(), false, moves);
            sys.received == [] && Sent(sys.c, 2, [7, 9], true)
  {
    ReachSent(moves);
    ReachLost(moves);
    assert moves[..5] == moves;
  }

  /** The guest says nothing, so it is well-behaved and its window stays. */
  lemma SilentMove(sys: System, m: Move)
    requires Inv(sys.c) && (m.Handle? ==> !m.e.FromGuest?)
    ensures WellBehaved(sys, m, []) && KeepsEdge(sys, false, m)
  {
    if m.Handle? { OthersKeepEdge(sys.c, false, m.e); }
  }

  lemma SilentRun(moves: seq<Move>)
    requires moves == LOSING
    ensures WellBehavedRun(Begin(), false, moves, []) && KeepsEdgeRun(Begin(), false, moves)
  {
    forall i | 0 <= i < |moves|
      ensures WellBehaved(RunSystem(Begin(), false, moves[..i]), moves[i], [])
      ensures KeepsEdge(RunSystem(Begin(), false, moves[..i]), false, moves[i])
    {
      SilentMove(RunSystem(Begin(), false, moves[..i]), moves[i]);
    }
  }

  /** Nothing has arrived, and both bytes are in flight. */
  lemma AllLost()
    ensures WellBehavedRun(Begin(), false, LOSING, []) && KeepsEdgeRun(Begin(), false, LOSING)
    ensures var sys := RunSystem(Begin(), false, LOSING);
            && sys.received == [] && sys.c.io.fromHost == [7, 9] && sys.c.t.hostEof && sys.c.gone.None?
            && |sys.c.t.queue| == 2 && !Paused(sys.c) && sys.c.t.lastProgress == 0
  {
    SilentRun(LOSING);
    ReachEnd(LOSING);
  }

  /** Four rounds are enough. */
  lemma LostIsDelivered(states: seq<System>, keep: Choice, windows: seq<u16>, times: seq<nat>) returns (n: nat)
    requires Played(states, false, keep, windows, times) && AllOpen(windows) && |windows| == 4 && times[0] > RTO
    requires states[0] == RunSystem(Begin(), false, LOSING)
    ensures n <= 4 && Finished(states[n])
  {
    AllLost();
    n := RoundsDeliver(0, 3, None, None, 0, false, LOSING, [], states, keep, windows, times);
  }
}
