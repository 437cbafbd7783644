/** A concrete run that closes gracefully: the host sends one byte, the guest another, and both end their streams. */
module CloseExample {
  import opened Words
  import opened TcpModel
  import opened TcpInvariant
  import opened TcpDelivery
  import opened Examples

  const READ := SocketReady(false, false, false, Data([7]), 0)
  /** The guest acks the host's byte, and sends its own with its FIN. */
  const GUEST_DATA := FromGuest(Header(1, ISN + 2, FIN_ACK, 1000), [5], 1, Again, 0)
  const FIN_ACKED := FromGuest(Header(3, ISN + 3, ACK, 1000), [], 0, Again, 0)

  const CLOSING := [CONNECTED, READ, HOST_EOF, GUEST_DATA, FIN_ACKED]

  function Begin(): (c: Conn)
    ensures Inv(c)
  {
    Opened(0, 1000, None, None, 0)
  }

  /** An established flow that has taken nothing from the guest. */
  ghost predicate Downloading(c: Conn, sent: nat, queue: seq<byte>, eof: bool) {
    && c.gone.None? && c.t.state.Established? && c.t.hostFin.NotSent?
    && c.t.guestWindow == 1000 && c.t.guestWscale == None && c.t.guestMss == 536 && c.t.seqUna == ISN + 1
    && c.t.sentUnacked == sent && c.t.queue == queue && c.io.fromHost == queue && c.t.hostEof == eof
    && Untouched(c)
  }

  ghost predicate Untouched(c: Conn) {
    c.t.seqFromGuest == 1 && !c.t.guestFin && c.io.toHost == [] && c.io.guestIsn == 0 && c.io.shutAt == None
    && !c.t.ackDeferred
  }

  /** Both streams are over; our FIN waits for its ack. */
  ghost predicate LastAck(c: Conn) {
    && c.gone.None? && c.t.state.Established? && c.t.hostFin.Sent? && c.t.guestFin
    && c.t.seqUna == ISN + 2 && c.t.sentUnacked == 0 && c.io.fromHost == [7] && c.io.toHost == [5]
  }

  lemma Connect()
    ensures Downloading(Step(Begin(), false, CONNECTED), 0, [], false)
  {
  }

  lemma ReadOne(c: Conn)
    requires Inv(c) && Downloading(c, 0, [], false)
    ensures Downloading(Step(c, false, READ), 1, [7], false)
  {
    var c1 := c.(t := c.t.(pollArmed := false));
    var c2 := Fill(c1, Data([7])).0;
    assert Downloading(c2, 0, [7], false);
    SendOneByte(c2);
  }

  lemma SendOneByte(c: Conn)
    requires Downloading(c, 0, [7], false)
    ensures Downloading(SendNew(c, 1000, true, false, 0), 1, [7], false)
  {
    assert [7][0..1] == [7];
    CutOne([7], FramingOf(c, 1, false), 0);
  }

  lemma ReadEof(c: Conn)
    requires Inv(c) && Downloading(c, 1, [7], false)
    ensures Downloading(Step(c, false, HOST_EOF), 1, [7], true)
  {
  }

  /** After the guest's frame is taken: everything acked, the guest's byte written, its FIN passed on. */
  ghost predicate Uploaded(c: Conn) {
    && c.gone.None? && c.t.state.Established? && c.t.hostFin.NotSent? && c.t.hostEof && c.t.guestFin
    && c.t.guestWindow == 1000 && c.t.guestMss == 536 && c.t.seqUna == ISN + 2 && c.t.sentUnacked == 0
    && c.t.queue == [] && c.io.fromHost == [7] && c.io.toHost == [5]
  }

  lemma TakeAck(c: Conn)
    requires Inv(c) && Downloading(c, 1, [7], true)
    ensures var t := AckFromGuest(c.t, GUEST_DATA.header, false, 0);
            && t.seqUna == ISN + 2 && t.sentUnacked == 0 && t.queue == [] && t.guestWindow == 1000
            && t == c.t.(seqUna := t.seqUna, sentUnacked := 0, queue := [], dupAcks := 0, lastProgress := 0)
  {
  }

  lemma TakeByte(c: Conn)
    requires c.gone.None? && c.t.state.Established? && c.t.hostFin.NotSent? && c.t.hostEof
    requires c.t.guestWindow == 1000 && c.t.guestMss == 536 && c.t.seqUna == ISN + 2 && c.t.sentUnacked == 0
    requires c.t.queue == [] && c.io.fromHost == [7] && Untouched(c)
    ensures Uploaded(Upload(c, GUEST_DATA.header, [5], 1))
  {
    assert [] + [5][..1] == [5];
  }

  lemma TakeData(c: Conn)
    requires Inv(c) && Downloading(c, 1, [7], true)
    ensures LastAck(Step(c, false, GUEST_DATA))
  {
    var c1 := c.(t := AckFromGuest(c.t, GUEST_DATA.header, false, 0));
    TakeAck(c);
    TakeByte(c1);
    var c2 := Upload(c1, GUEST_DATA.header, [5], 1);
    assert Uploaded(c2);
  }

  lemma TakeLastAck(c: Conn)
    requires Inv(c) && LastAck(c)
    ensures var c' := Step(c, false, FIN_ACKED);
            c'.gone == Some(ByClose) && c'.io.fromHost == [7] && c'.io.toHost == [5]
  {
    var c1 := c.(t := AckFromGuest(c.t, FIN_ACKED.header, true, 0));
    assert c1.t.hostFin.Acked? && c1.t.guestFin;
    var c2 := Upload(c1, FIN_ACKED.header, [], 0);
    assert c2.t.hostFin.Acked? && c2.t.guestFin && c2.io.toHost == [5];
  }

  // ---------------------------------------------------------------------------------------------
  // The run
  // ---------------------------------------------------------------------------------------------

  /** One more event; `c` is where the shorter run ends. */
  lemma Extend(events: seq<Event>, n: nat, c: Conn)
    requires n < |events| && Run(Begin(), false, events[..n]) == c
    ensures Inv(c) && Run(Begin(), false, events[..n + 1]) == Step(c, false, events[n])
  {
    RunAppend(Begin(), false, events[..n], events[n]);
    assert events[..n + 1] == events[..n] + [events[n]];
  }

  lemma Reach1(events: seq<Event>)
    requires events == CLOSING
    ensures Downloading(Run(Begin(), false, events[..1]), 0, [], false)
  {
    Extend(events, 0, Begin());
    Connect();
  }

  lemma Reach2(events: seq<Event>)
    requires events == CLOSING
    ensures Downloading(Run(Begin(), false, events[..2]), 1, [7], false)
  {
    Reach1(events);
    ExtendByRead(events, Run(Begin(), false, events[..1]), events[1]);
  }

  lemma ExtendByRead(events: seq<Event>, c: Conn, e: Event)
    requires |events| > 1 && events[1] == e == READ && Run(Begin(), false, events[..1]) == c
    requires Inv(c) && Downloading(c, 0, [], false)
    ensures Downloading(Run(Begin(), false, events[..2]), 1, [7], false)
  {
    Extend(events, 1, c);
    ReadOne(c);
  }

  lemma Reach3(events: seq<Event>)
    requires events == CLOSING
    ensures Downloading(Run(Begin(), false, events[..3]), 1, [7], true)
  {
    Reach2(events);
    Extend(events, 2, Run(Begin(), false, events[..2]));
    ReadEof(Run(Begin(), false, events[..2]));
  }

  lemma Reach4(events: seq<Event>)
    requires events == CLOSING
    ensures LastAck(Run(Begin(), false, events[..4]))
  {
    Reach3(events);
    Extend(events, 3, Run(Begin(), false, events[..3]));
    TakeData(Run(Begin(), false, events[..3]));
  }

  lemma Reach5(events: seq<Event>)
    requires events == CLOSING
    ensures var c := Run(Begin(), false, events);
            c.gone == Some(ByClose) && c.io.fromHost == [7] && c.io.toHost == [5]
  {
    Reach4(events);
    Extend(events, 4, Run(Begin(), false, events[..4]));
    assert events[..5] == events;
    TakeLastAck(Run(Begin(), false, events[..4]));
  }

  lemma NoSynIsSafe()
    ensures SynSafeRun(Begin(), false, CLOSING)
  {
  }

  lemma SendsAt(i: nat, c: Conn)
    requires i < |CLOSING| && (i == 3 ==> Untouched(c))
    ensures GuestSends(c, CLOSING[i], [5])
  {
    if i == 3 {
      assert [5] == [5][0..1];
      assert StreamSent(GUEST_DATA.header, [5], [5], 0, 0, 0);
    } else if i == 4 {
      assert StreamSent(FIN_ACKED.header, [], [5], c.io.guestIsn, |c.io.toHost|, 0);
    }
  }

  lemma SendsOneByte()
    ensures GuestSendsRun(Begin(), false, CLOSING, [5])
  {
    Reach3(CLOSING);
    forall i | 0 <= i < |CLOSING| ensures GuestSends(Run(Begin(), false, CLOSING[..i]), CLOSING[i], [5]) {
      SendsAt(i, Run(Begin(), false, CLOSING[..i]));
    }
  }

  /** Runs that meet what `GracefulClose` asks for do close gracefully, with bytes in both directions. */
  lemma ClosesGracefully()
    ensures SynSafeRun(Begin(), false, CLOSING) && GuestSendsRun(Begin(), false, CLOSING, [5])
    ensures var c := Run(Begin(), false, CLOSING);
            c.gone == Some(ByClose) && c.io.fromHost == [7] && c.io.toHost == [5]
  {
    NoSynIsSafe();
    SendsOneByte();
    Reach5(CLOSING);
  }
}
