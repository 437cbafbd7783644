/**
  Concrete runs on which properties fail.  A SYN after acknowledged data, with a two-byte host stream and
  a guest window of one: the SYN branch puts `seq_una` back to the first byte but leaves the buffer at
  the second one.  And an ack of a byte behind the FIN, which nobody sent.
 */
module Examples {
  import opened Words
  import opened TcpModel
  import opened TcpInvariant
  import opened TcpLabels
  import opened TcpDelivery
  import opened TcpLiveness

  const CONNECTED := SocketReady(false, false, false, Again, 0)
  const READABLE := SocketReady(false, false, false, Data([7, 9]), 0)
  const HOST_EOF := SocketReady(false, false, false, Eof, 0)
  const GUEST_SYN := FromGuest(Header(0, 0, Flags(true, false, false, false, false), 1), [], 0, Again, 0)

  function GuestAck(ackno: u32): Event { FromGuest(Header(1, ackno, ACK, 1), [], 0, Again, 0) }

  function Start(): (c: Conn)
    ensures Inv(c)
  {
    Opened(0, 1, None, None, 0)
  }

  lemma RunAppend(c: Conn, tso: bool, events: seq<Event>, e: Event)
    requires Inv(c)
    ensures Run(c, tso, events + [e]) == Step(Run(c, tso, events), tso, e)
  {
    assert (events + [e])[..|events|] == events;
  }

  /** The fields the example turns on; the guest's side stays as the handshake left it. */
  ghost predicate At(c: Conn, una: u32, sent: nat, queue: seq<byte>, stream: seq<byte>, armed: bool) {
    && c.gone.None? && c.t.state.Established? && c.t.hostFin.NotSent? && !c.t.hostEof
    && c.t.guestWindow == 1 && c.t.guestWscale == None && c.t.guestMss == 536
    && c.t.seqUna == una && c.t.sentUnacked == sent && c.t.queue == queue && c.io.fromHost == stream
    && c.t.pollArmed == armed
  }

  lemma ConnectStep()
    ensures At(Step(Start(), false, CONNECTED), ISN + 1, 0, [], [], true)
    ensures Quiet(Step(Start(), false, CONNECTED))
  {
  }

  /** Nothing came from the guest since its SYN. */
  ghost predicate Quiet(c: Conn) { c.t.seqFromGuest == 1 && !c.t.guestFin }

  lemma ReachConnected()
    ensures At(Run(Start(), false, [CONNECTED]), ISN + 1, 0, [], [], true) && Quiet(Run(Start(), false, [CONNECTED]))
  {
    ConnectStep();
    RunAppend(Start(), false, [], CONNECTED);
    assert [] + [CONNECTED] == [CONNECTED];
  }

  lemma CutOne(data: seq<byte>, how: Framing, at: int)
    requires 0 < |data| <= how.chunk
    ensures Cut(data, how, at) == [DataSegment(how, data, at)]
  {
    assert data[..|data|] == data && data[|data|..] == [];
  }

  lemma SendOne(c: Conn, queue: seq<byte>, stream: seq<byte>, una: u32)
    requires At(c, una, 0, queue, stream, c.t.pollArmed) && queue != []
    ensures var armed := c.t.pollArmed || |queue| == 1;
            At(SendNew(c, 1, true, false, 0), una, 1, queue, stream, armed)
    ensures var tap := SendNew(c, 1, true, false, 0).io.tap;
            tap == c.io.tap + [Segment(una, c.t.seqFromGuest, ACK, [], [queue[0]], None, |stream| - |queue|)]
  {
    assert queue[0..1] == [queue[0]];
    CutOne([queue[0]], FramingOf(c, 1, false), |stream| - |queue|);
  }

  lemma ReadStep(c: Conn)
    requires Inv(c) && At(c, ISN + 1, 0, [], [], true)
    ensures At(Step(c, false, READABLE), ISN + 1, 1, [7, 9], [7, 9], false)
  {
    var c1 := c.(t := c.t.(pollArmed := false));
    var c2 := Fill(c1, Data([7, 9])).0;
    assert At(c2, ISN + 1, 0, [7, 9], [7, 9], false);
    SendOne(c2, [7, 9], [7, 9], ISN + 1);
  }

  /** The window opens by one byte: the second byte goes out, and the poll is armed again. */
  lemma AckStep(c: Conn)
    requires Inv(c) && At(c, ISN + 1, 1, [7, 9], [7, 9], false)
    ensures At(Step(c, false, GuestAck(ISN + 2)), ISN + 2, 1, [9], [7, 9], true)
  {
    var h := GuestAck(ISN + 2).header;
    var c1 := c.(t := AckFromGuest(c.t, h, true, 0));
    assert At(c1, ISN + 2, 0, [9], [7, 9], false);
    var c2 := Upload(c1, h, [], 0);
    assert At(c2, ISN + 2, 0, [9], [7, 9], false);
    SendOne(c2, [9], [7, 9], ISN + 2);
  }

  lemma SynStep(c: Conn)
    requires Inv(c) && At(c, ISN + 2, 1, [9], [7, 9], true)
    ensures At(Step(c, false, GUEST_SYN), ISN + 1, 0, [9], [7, 9], true)
  {
  }

  /** The host's second byte is on the tap under the first one's sequence number. */
  ghost predicate Swapped(c: Conn) {
    c.io.fromHost == [7, 9] && exists s :: s in c.io.tap && s.seqno == Wrap32(ISN + 1) && s.payload == [9]
  }

  /** The second byte goes out again, now under the sequence number of the first. */
  lemma ResendStep(c: Conn)
    requires Inv(c) && At(c, ISN + 1, 0, [9], [7, 9], true)
    ensures Swapped(Step(c, false, GuestAck(ISN + 1)))
  {
    var h := GuestAck(ISN + 1).header;
    var c1 := c.(t := AckFromGuest(c.t, h, true, 0));
    var c2 := Upload(c1, h, [], 0);
    assert At(c2, ISN + 1, 0, [9], [7, 9], true);
    SendOne(c2, [9], [7, 9], ISN + 1);
    var s := Segment(ISN + 1, c2.t.seqFromGuest, ACK, [], [9], None, 1);
    assert s in SendNew(c2, 1, true, false, 0).io.tap;
  }

  /** Where the run is after the window opened once. */
  lemma ReachSecondByte()
    ensures At(Run(Start(), false, [CONNECTED, READABLE]), ISN + 1, 1, [7, 9], [7, 9], false)
  {
    ReachConnected();
    RunAppend(Start(), false, [CONNECTED], READABLE);
    assert [CONNECTED] + [READABLE] == [CONNECTED, READABLE];
    ReadStep(Run(Start(), false, [CONNECTED]));
  }

  const UNTIL_SYN := [CONNECTED, READABLE, GuestAck(ISN + 2), GUEST_SYN]

  lemma ReachBeforeSyn()
    ensures At(Run(Start(), false, [CONNECTED, READABLE, GuestAck(ISN + 2)]), ISN + 2, 1, [9], [7, 9], true)
  {
    var e2 := [CONNECTED, READABLE];
    ReachSecondByte();
    RunAppend(Start(), false, e2, GuestAck(ISN + 2));
    AckStep(Run(Start(), false, e2));
    assert e2 + [GuestAck(ISN + 2)] == [CONNECTED, READABLE, GuestAck(ISN + 2)];
  }

  lemma ReachAfterSyn()
    ensures At(Run(Start(), false, UNTIL_SYN), ISN + 1, 0, [9], [7, 9], true)
  {
    var e3 := [CONNECTED, READABLE, GuestAck(ISN + 2)];
    ReachBeforeSyn();
    RunAppend(Start(), false, e3, GUEST_SYN);
    SynStep(Run(Start(), false, e3));
    assert e3 + [GUEST_SYN] == UNTIL_SYN;
  }

  lemma SwappedIsUnfaithful(c: Conn)
    requires Swapped(c)
    ensures !FaithfulTap(c.io.tap, c.io.fromHost)
  {
    var s :| s in c.io.tap && s.seqno == Wrap32(ISN + 1) && s.payload == [9];
    if Faithful(s, c.io.fromHost) {
      assert s.payload[0] == c.io.fromHost[s.at];
      WrapInjective(ISN + 1 + s.at, ISN + 1);
      assert false;
    }
  }

  /** The SYN is not a safe one. */
  lemma SynIsUnsafe(events: seq<Event>)
    requires UNTIL_SYN <= events
    ensures !SynSafeRun(Start(), false, events)
  {
    var e3 := [CONNECTED, READABLE, GuestAck(ISN + 2)];
    ReachBeforeSyn();
    assert events[..3] == e3 && events[3] == GUEST_SYN;
    assert IsSyn(Run(Start(), false, e3), GUEST_SYN) && AckedBytes(Run(Start(), false, e3)) == 1;
  }

  const MISLABELLED := UNTIL_SYN + [GuestAck(ISN + 1)]

  /** Download fidelity fails on this run, whose SYN comes after a data ack. */
  lemma SynMislabels()
    ensures !SynSafeRun(Start(), false, MISLABELLED)
    ensures var c := Run(Start(), false, MISLABELLED);
            Swapped(c) && !FaithfulTap(c.io.tap, c.io.fromHost)
  {
    ReachAfterSyn();
    RunAppend(Start(), false, UNTIL_SYN, GuestAck(ISN + 1));
    ResendStep(Run(Start(), false, UNTIL_SYN));
    SwappedIsUnfaithful(Run(Start(), false, MISLABELLED));
    SynIsUnsafe(MISLABELLED);
  }

  /** Everything is acked, and the poll is still armed. */
  lemma AckLastStep(c: Conn)
    requires Inv(c) && At(c, ISN + 2, 1, [9], [7, 9], true)
    ensures At(Step(c, false, GuestAck(ISN + 3)), ISN + 3, 0, [], [7, 9], true)
  {
    var h := GuestAck(ISN + 3).header;
    var c1 := c.(t := AckFromGuest(c.t, h, true, 0));
    assert At(c1, ISN + 3, 0, [], [7, 9], true);
    UploadNothing(c1, h);
  }

  lemma LateSynStep(c: Conn)
    requires Inv(c) && At(c, ISN + 3, 0, [], [7, 9], true)
    ensures At(Step(c, false, GUEST_SYN), ISN + 1, 0, [], [7, 9], true)
  {
  }

  /** The FIN goes out under the sequence number of the first byte. */
  lemma LateEofStep(c: Conn)
    requires Inv(c) && At(c, ISN + 1, 0, [], [7, 9], true)
    ensures !FinsNameEnd(Step(c, false, HOST_EOF))
  {
    var c' := Step(c, false, HOST_EOF);
    var s := c'.io.tap[|c.io.tap|];
    assert s in c'.io.tap && s.flags.fin && s.seqno == ISN + 1 && c'.io.fromHost == [7, 9];
  }

  lemma ReachAllAcked()
    ensures At(Run(Start(), false, [CONNECTED, READABLE, GuestAck(ISN + 2), GuestAck(ISN + 3)]),
               ISN + 3, 0, [], [7, 9], true)
  {
    var e3 := [CONNECTED, READABLE, GuestAck(ISN + 2)];
    ReachBeforeSyn();
    RunAppend(Start(), false, e3, GuestAck(ISN + 3));
    AckLastStep(Run(Start(), false, e3));
    assert e3 + [GuestAck(ISN + 3)] == [CONNECTED, READABLE, GuestAck(ISN + 2), GuestAck(ISN + 3)];
  }

  const UNTIL_LATE_SYN := [CONNECTED, READABLE, GuestAck(ISN + 2), GuestAck(ISN + 3), GUEST_SYN]

  lemma ReachAfterLateSyn()
    ensures At(Run(Start(), false, UNTIL_LATE_SYN), ISN + 1, 0, [], [7, 9], true)
  {
    var e4 := [CONNECTED, READABLE, GuestAck(ISN + 2), GuestAck(ISN + 3)];
    ReachAllAcked();
    RunAppend(Start(), false, e4, GUEST_SYN);
    LateSynStep(Run(Start(), false, e4));
    assert e4 + [GUEST_SYN] == UNTIL_LATE_SYN;
  }

  /** The FIN does not name the end of the stream on this run, whose SYN comes after all data is acked. */
  lemma SynMislabelsFin()
    ensures !FinsNameEnd(Run(Start(), false, UNTIL_LATE_SYN + [HOST_EOF]))
  {
    ReachAfterLateSyn();
    RunAppend(Start(), false, UNTIL_LATE_SYN, HOST_EOF);
    LateEofStep(Run(Start(), false, UNTIL_LATE_SYN));
  }

  /** A SYN while data is in flight and the socket is not polled leaves the flow without a wake-up source. */
  lemma SynStalls()
    ensures !Awake(Run(Start(), false, [CONNECTED, READABLE, GUEST_SYN]))
  {
    ReachSecondByte();
    var c := Run(Start(), false, [CONNECTED, READABLE]);
    RunAppend(Start(), false, [CONNECTED, READABLE], GUEST_SYN);
    assert [CONNECTED, READABLE] + [GUEST_SYN] == [CONNECTED, READABLE, GUEST_SYN];
    SynAwake(c);
  }

  // ---------------------------------------------------------------------------------------------
  // An ack behind the FIN
  // ---------------------------------------------------------------------------------------------

  /** Our FIN is out, or acked, and the next byte would go out at `una`. */
  ghost predicate FinAt(c: Conn, fin: FinState, una: u32) {
    && c.gone.None? && c.t.state.Established? && c.t.hostFin == fin && c.t.seqUna == una
    && c.t.sentUnacked == 0 && !c.t.guestFin
  }

  /** The host ends its empty stream: the FIN goes out. */
  lemma EofStep(c: Conn)
    requires Inv(c) && At(c, ISN + 1, 0, [], [], true) && Quiet(c)
    ensures FinAt(Step(c, false, HOST_EOF), Sent, ISN + 1)
  {
  }

  /** An ack of the FIN, or of the byte behind it. */
  lemma FinAckStep(c: Conn, fin: FinState, una: u32)
    requires Inv(c) && FinAt(c, fin, una) && !fin.NotSent? && una < TWO32 - 1
    ensures FinAt(Step(c, false, GuestAck(una + 1)), Acked, una + 1)
  {
    var h := GuestAck(una + 1).header;
    var c1 := c.(t := AckFromGuest(c.t, h, true, 0));
    assert c1.t.hostFin.Acked? && c1.t.seqUna == una + 1 && c1.t.sentUnacked == 0;
    UploadNothing(c1, h);
  }

  lemma ReachFinOut()
    ensures FinAt(Run(Start(), false, [CONNECTED, HOST_EOF]), Sent, ISN + 1)
  {
    ReachConnected();
    RunAppend(Start(), false, [CONNECTED], HOST_EOF);
    assert [CONNECTED] + [HOST_EOF] == [CONNECTED, HOST_EOF];
    EofStep(Run(Start(), false, [CONNECTED]));
  }

  lemma ReachFinAcked()
    ensures FinAt(Run(Start(), false, [CONNECTED, HOST_EOF, GuestAck(ISN + 2)]), Acked, ISN + 2)
  {
    ReachFinOut();
    RunAppend(Start(), false, [CONNECTED, HOST_EOF], GuestAck(ISN + 2));
    assert [CONNECTED, HOST_EOF] + [GuestAck(ISN + 2)] == [CONNECTED, HOST_EOF, GuestAck(ISN + 2)];
    FinAckStep(Run(Start(), false, [CONNECTED, HOST_EOF]), Sent, ISN + 1);
  }

  const ACKED := [CONNECTED, HOST_EOF, GuestAck(ISN + 2)]

  /** The send position leaves the end of the stream on this run, whose last ack is of a byte never sent. */
  lemma AckBehindFinMoves()
    ensures FinAt(Run(Start(), false, ACKED), Acked, ISN + 2)
    ensures FinAt(Run(Start(), false, ACKED + [GuestAck(ISN + 3)]), Acked, ISN + 3)
  {
    ReachFinAcked();
    RunAppend(Start(), false, ACKED, GuestAck(ISN + 3));
    FinAckStep(Run(Start(), false, ACKED), Acked, ISN + 2);
  }
}
