/**
  When data goes out again.  Bytes that were sent before are resent in two cases only: after three bare acks
  in a row of the oldest byte in flight, and after a timeout.
 */
module TcpResends {
  import opened Words
  import opened TcpModel
  import opened TcpInvariant
  import opened TcpEffects
  import opened TcpLabels
  import opened TcpLiveness

  // ---------------------------------------------------------------------------------------------
  // Duplicate acks
  // ---------------------------------------------------------------------------------------------

  /** A bare ack of the oldest byte in flight, with the window that the flow knows already. */
  predicate Duplicates(t: Tcp, e: Event) {
    && e.FromGuest? && e.header.flags.ack && !e.header.flags.syn && !e.header.flags.rst && !e.header.flags.fin
    && e.payload == [] && e.header.ackno == t.seqUna && Scaled(e.header.window, t.guestWscale) == t.guestWindow
    && t.sentUnacked > 0
  }

  lemma DuplicateRecord(t: Tcp, e: Event)
    requires t.sentUnacked <= |t.queue| && t.dupAcks < 3 && Duplicates(t, e)
    ensures AckFromGuest(t, e.header, true, e.now)
            == if t.dupAcks == 2 then t.(dupAcks := 0, sentUnacked := 0) else t.(dupAcks := t.dupAcks + 1)
  {
  }

  /** Any other ack leaves what is unsent as it is. */
  lemma OtherRecord(t: Tcp, e: Event)
    requires t.sentUnacked <= |t.queue| && e.FromGuest? && !e.header.flags.syn && !e.header.flags.rst
    requires e.header.flags.ack && !Duplicates(t, e)
    ensures var r := AckFromGuest(t, e.header, e.payload == [], e.now);
            |r.queue| - r.sentUnacked == |t.queue| - t.sentUnacked
  {
  }

  /** The event makes everything in flight go out again. */
  predicate ThirdDuplicate(c: Conn, e: Event) { IsSegment(c, e) && Duplicates(c.t, e) && c.t.dupAcks == 2 }

  predicate TimedOut(c: Conn, e: Event) {
    e.TimerTick? && c.gone.None? && c.t.sentUnacked > 0 && c.t.lastProgress + RTO < e.now
  }

  // ---------------------------------------------------------------------------------------------
  // Nothing is sent twice
  // ---------------------------------------------------------------------------------------------

  lemma {:induction false} CutBeyond(data: seq<byte>, how: Framing, at: int)
    requires how.chunk > 0
    ensures forall s :: s in Cut(data, how, at) ==> at <= s.at
    decreases |data|
  {
    if data != [] {
      var len := Min(how.chunk, |data|);
      CutBeyond(data[len..], how, at + len);
    }
  }

  lemma SendNewBeyond(c: Conn, budget: nat, drained: bool, tso: bool, now: nat)
    requires c.t.sentUnacked < |c.t.queue| && budget > 0 && c.t.guestMss > 0
    ensures Beyond(SendNew(c, budget, drained, tso, now).io.tap, |c.io.tap|, SendOffset(c))
  {
    var sent, len := c.t.sentUnacked, SendLen(c.t, budget);
    CutBeyond(c.t.queue[sent..sent + len], FramingOf(c, len, tso), SendOffset(c));
    var tap := SendNew(c, budget, drained, tso, now).io.tap;
    forall i | |c.io.tap| <= i < |tap| ensures SendOffset(c) <= tap[i].at {
      assert tap[i] == NewSegments(c, budget, tso)[i - |c.io.tap|];
    }
  }

  lemma ForwardBeyond(c: Conn, budget: nat, drained: bool, tso: bool, now: nat)
    requires c.t.sentUnacked <= |c.t.queue| && c.t.guestMss > 0 && budget > 0
    ensures Beyond(AfterFill(c, budget, drained, tso, now).io.tap, |c.io.tap|, SendOffset(c))
  {
    if c.gone.None? && c.t.sentUnacked < |c.t.queue| { SendNewBeyond(c, budget, drained, tso, now); }
  }

  lemma FillBeyond(c: Conn, recv: Recv)
    ensures var c' := Fill(c, recv).0;
            SendOffset(c') == SendOffset(c) && c.io.tap <= c'.io.tap && Bare(c'.io.tap, |c.io.tap|)
  {
  }

  lemma BeyondAfter(tap: seq<Segment>, tap1: seq<Segment>, tap2: seq<Segment>, bound: int)
    requires tap <= tap1 <= tap2 && Bare(tap1, |tap|) && Beyond(tap2, |tap1|, bound)
    ensures Beyond(tap2, |tap|, bound)
  {
    assert forall i :: 0 <= i < |tap1| ==> tap2[i] == tap1[i];
  }

  lemma SendBeyond(c: Conn, recv: Recv, tso: bool, now: nat)
    requires c.t.sentUnacked <= |c.t.queue| && c.t.guestMss > 0
    ensures Beyond(DataToGuest(c, recv, tso, now).io.tap, |c.io.tap|, SendOffset(c))
  {
    if MaySend(c.t) {
      var c1, drained, budget := Fill(c, recv).0, Fill(c, recv).1, c.t.guestWindow - c.t.sentUnacked;
      FillFrame(c, recv);
      FillBeyond(c, recv);
      ForwardBeyond(c1, budget, drained, tso, now);
      ForwardExtends(c1, budget, drained, tso, now);
      BeyondAfter(c.io.tap, c1.io.tap, AfterFill(c1, budget, drained, tso, now).io.tap, SendOffset(c));
    }
  }

  lemma UploadBare(c: Conn, h: Header, payload: seq<byte>, accept: nat)
    ensures var r := Upload(c, h, payload, accept);
            c.io.tap <= r.io.tap && Bare(r.io.tap, |c.io.tap|) && SendOffset(r) == SendOffset(c)
  {
    UploadConsistent(c, h, payload, accept);
    UploadStays(c, h, payload, accept);
    UploadPlain(c, h, payload, accept);
  }

  lemma UploadPlain(c: Conn, h: Header, payload: seq<byte>, accept: nat)
    ensures Bare(Upload(c, h, payload, accept).io.tap, |c.io.tap|)
  {
    var n := Accepted(c, h, payload, accept);
    var defer := payload != [] && n == |payload| && !h.flags.psh && !c.t.ackDeferred;
    var fin := h.flags.fin && n == |payload|;
    UploadParts(c, h, payload, accept, n, defer, fin, fin || (payload != [] && !defer));
    TookRest(c, h, payload, n, defer, fin);
  }

  lemma DeliverBeyond(c: Conn, h: Header, payload: seq<byte>, accept: nat, recv: Recv, tso: bool, now: nat)
    requires c.t.sentUnacked <= |c.t.queue| && c.t.guestMss > 0
    ensures Beyond(DataToGuest(Upload(c, h, payload, accept), recv, tso, now).io.tap, |c.io.tap|, SendOffset(c))
  {
    var c2 := Upload(c, h, payload, accept);
    UploadBare(c, h, payload, accept);
    SendBeyond(c2, recv, tso, now);
    DataToGuestExtends(c2, recv, tso, now);
    BeyondAfter(c.io.tap, c2.io.tap, DataToGuest(c2, recv, tso, now).io.tap, SendOffset(c));
  }

  lemma SegmentBeyond(c: Conn, tso: bool, e: Event)
    requires Inv(c) && IsSegment(c, e) && !ThirdDuplicate(c, e)
    ensures Beyond(Step(c, tso, e).io.tap, |c.io.tap|, SendOffset(c))
  {
    var c1 := AfterAck(c, e.header, e.payload, e.now);
    SegmentStep(c, tso, e);
    AfterAckFrame(c, e.header, e.payload, e.now);
    if e.header.flags.ack {
      if Duplicates(c.t, e) { DuplicateRecord(c.t, e); } else { OtherRecord(c.t, e); }
    }
    DeliverBeyond(c1, e.header, e.payload, e.accept, e.recv, tso, e.now);
  }

  lemma TickBeyond(c: Conn, tso: bool, e: Event)
    requires Inv(c) && e.TimerTick? && c.gone.None? && !TimedOut(c, e)
    ensures Beyond(Step(c, tso, e).io.tap, |c.io.tap|, SendOffset(c))
  {
  }

  /** Nothing that was sent before goes out again, except after a third duplicate ack and after a timeout. */
  lemma NothingTwice(c: Conn, tso: bool, e: Event)
    requires Inv(c) && !ThirdDuplicate(c, e) && !TimedOut(c, e)
    ensures Beyond(Step(c, tso, e).io.tap, |c.io.tap|, SendOffset(c))
  {
    if c.gone.None? {
      match e
      case FromGuest(_, _, _, _, _) => if IsSegment(c, e) { SegmentBeyond(c, tso, e); }
      case SocketReady(_, _, _, recv, now) => SendBeyond(c.(t := c.t.(pollArmed := false)), recv, tso, now);
      case PollFailed =>
      case TimerTick(_, _) => TickBeyond(c, tso, e);
    }
  }

  // ---------------------------------------------------------------------------------------------
  // Resending
  // ---------------------------------------------------------------------------------------------

  lemma ForwardFills(c: Conn, budget: nat, drained: bool, tso: bool, now: nat)
    requires c.t.sentUnacked == 0 && c.t.queue != [] && c.t.guestMss > 0 && budget > 0
    ensures var c' := Forward(c, budget, drained, tso, now);
            && c'.t.sentUnacked == Min(|c'.t.queue|, budget) && c'.t.lastProgress == now
            && c'.t.hostFin == c.t.hostFin && c'.gone == c.gone
  {
  }

  /** Resending with an open window fills the window. */
  lemma ResendSends(c: Conn, recv: Recv, tso: bool, now: nat)
    requires Inv(c) && c.gone.None? && c.t.state.Established? && c.t.hostFin.NotSent?
    requires c.t.sentUnacked == 0 && c.t.queue != [] && c.t.guestWindow > 0 && !recv.Failed?
    ensures var c' := DataToGuest(c, recv, tso, now);
            && c'.t.sentUnacked == Min(|c'.t.queue|, c.t.guestWindow) > 0
            && c'.t.hostFin.NotSent? && c'.gone.None? && c'.t.lastProgress == now
  {
    FillFrame(c, recv);
    ForwardFills(Fill(c, recv).0, c.t.guestWindow, Fill(c, recv).1, tso, now);
  }

  /** The new frames carry the host's stream again from the oldest byte in flight on, as far as the window goes. */
  ghost predicate ResendsAll(c: Conn, c': Conn) {
    && c.io.tap <= c'.io.tap && c'.gone.None? && AckedBytes(c') == AckedBytes(c)
    && c'.t.sentUnacked == Min(|c'.t.queue|, c'.t.guestWindow) > 0 && 0 <= AckedBytes(c)
    && SendOffset(c') <= |c'.io.fromHost|
    && Tiles(c'.io.tap[|c.io.tap|..], c'.io.fromHost[AckedBytes(c)..SendOffset(c')], AckedBytes(c))
  }

  /** What a duplicate ack leaves as it is. */
  ghost predicate StillInFlight(c: Conn, c': Conn) {
    && c'.gone.None? && c'.t.state.Established? && c'.t.seqUna == c.t.seqUna && c'.t.sentUnacked > 0
    && c'.t.guestWindow == c.t.guestWindow && c'.t.guestWscale == c.t.guestWscale && AckedBytes(c') == AckedBytes(c)
  }

  /** A bare ack brings nothing for the host. */
  lemma BareUpload(c: Conn, h: Header, accept: nat)
    requires !h.flags.fin
    ensures Upload(c, h, [], accept) == c
  {
    assert c.io.toHost + [] == c.io.toHost;
  }

  lemma DuplicateStep(c: Conn, tso: bool, e: Event)
    requires Inv(c) && IsSegment(c, e) && Duplicates(c.t, e)
    ensures var t := if c.t.dupAcks == 2 then c.t.(dupAcks := 0, sentUnacked := 0)
                     else c.t.(dupAcks := c.t.dupAcks + 1);
            && Inv(c.(t := t)) && c.t.hostFin.NotSent? && 0 <= AckedBytes(c)
            && Step(c, tso, e) == DataToGuest(c.(t := t), e.recv, tso, e.now)
  {
    DuplicateRecord(c.t, e);
    SegmentStep(c, tso, e);
    AfterAckFrame(c, e.header, e.payload, e.now);
    var c1 := AfterAck(c, e.header, e.payload, e.now);
    BareUpload(c1, e.header, e.accept);
    SendAcksNoFin(c1, e.recv, tso, e.now);
  }

  /** Sending leaves the ack position and the window where they are. */
  lemma SendStays(c: Conn, recv: Recv, tso: bool, now: nat)
    requires Inv(c) && c.gone.None? && c.t.state.Established? && !recv.Failed?
    ensures var c' := DataToGuest(c, recv, tso, now);
            && c'.gone.None? && c'.t.state.Established? && c'.t.seqUna == c.t.seqUna && c'.t.dupAcks == c.t.dupAcks
            && c'.t.guestWindow == c.t.guestWindow && c'.t.guestWscale == c.t.guestWscale
            && c'.t.sentUnacked >= c.t.sentUnacked && AckedBytes(c') == AckedBytes(c)
  {
    SendReads(c, recv, tso, now);
    DataToGuestFrame(c, recv, tso, now);
    DataToGuestSends(c, recv, tso, now);
    SendKeepsAcked(c, recv, tso, now);
  }

  lemma SendKeepsAcked(c: Conn, recv: Recv, tso: bool, now: nat)
    requires c.t.sentUnacked <= |c.t.queue| && c.t.guestMss > 0
    ensures AckedBytes(DataToGuest(c, recv, tso, now)) == AckedBytes(c)
  {
    if MaySend(c.t) {
      FillBeyond(c, recv);
      FillFrame(c, recv);
      ForwardReads(Fill(c, recv).0, c.t.guestWindow - c.t.sentUnacked, Fill(c, recv).1, tso, now);
    }
  }

  /** The first and the second duplicate are counted, and nothing goes out again. */
  lemma EarlyDuplicate(c: Conn, tso: bool, e: Event)
    requires Inv(c) && IsSegment(c, e) && Duplicates(c.t, e) && c.t.dupAcks < 2 && !e.recv.Failed?
    ensures var c' := Step(c, tso, e);
            && StillInFlight(c, c') && c'.t.dupAcks == c.t.dupAcks + 1
            && Beyond(c'.io.tap, |c.io.tap|, SendOffset(c))
  {
    DuplicateStep(c, tso, e);
    NothingTwice(c, tso, e);
    SendStays(c.(t := c.t.(dupAcks := c.t.dupAcks + 1)), e.recv, tso, e.now);
  }

  /** Fast retransmit: with the third, everything in flight goes out again at once. */
  lemma ThirdResends(c: Conn, tso: bool, e: Event)
    requires Inv(c) && ThirdDuplicate(c, e) && c.t.guestWindow > 0 && !e.recv.Failed?
    ensures var c' := Step(c, tso, e);
            StillInFlight(c, c') && c'.t.dupAcks == 0 && ResendsAll(c, c')
  {
    var c1 := c.(t := c.t.(dupAcks := 0, sentUnacked := 0));
    DuplicateStep(c, tso, e);
    SendStays(c1, e.recv, tso, e.now);
    ResendSends(c1, e.recv, tso, e.now);
    DataToGuestSends(c1, e.recv, tso, e.now);
  }

  /**
    Three duplicate acks in a row resend everything in flight exactly once: `j` is the one that does, the
    first if two had been counted already.
   */
  lemma ThreeDuplicates(c: Conn, tso: bool, e0: Event, e1: Event, e2: Event) returns (cs: seq<Conn>, j: nat)
    requires Inv(c) && c.gone.None? && c.t.state.Established? && c.t.guestWindow > 0
    requires Duplicates(c.t, e0) && Duplicates(c.t, e1) && Duplicates(c.t, e2)
    requires !e0.recv.Failed? && !e1.recv.Failed? && !e2.recv.Failed?
    ensures |cs| == 4 && cs[0] == c && Inv(cs[1]) && Inv(cs[2])
    ensures cs[1] == Step(c, tso, e0) && cs[2] == Step(cs[1], tso, e1) && cs[3] == Step(cs[2], tso, e2)
    ensures j == 2 - c.t.dupAcks && ResendsAll(cs[j], cs[j + 1])
    ensures forall i :: 0 <= i < 3 && i != j ==> Beyond(cs[i + 1].io.tap, |cs[i].io.tap|, SendOffset(cs[i]))
  {
    j := 2 - c.t.dupAcks;
    var c1 := OneDuplicate(c, c, tso, e0);
    var c2 := OneDuplicate(c, c1, tso, e1);
    var c3 := OneDuplicate(c, c2, tso, e2);
    cs := [c, c1, c2, c3];
  }

  /** One of several duplicates; `c0` is where they start. */
  lemma OneDuplicate(c0: Conn, c: Conn, tso: bool, e: Event) returns (c': Conn)
    requires Inv(c) && c.gone.None? && c.t.state.Established? && c.t.guestWindow > 0
    requires Duplicates(c0.t, e) && !e.recv.Failed? && (c == c0 || StillInFlight(c0, c))
    ensures c' == Step(c, tso, e) && Inv(c') && StillInFlight(c0, c')
    ensures c'.t.dupAcks == if c.t.dupAcks == 2 then 0 else c.t.dupAcks + 1
    ensures if c.t.dupAcks == 2 then ResendsAll(c, c') else Beyond(c'.io.tap, |c.io.tap|, SendOffset(c))
  {
    c' := Step(c, tso, e);
    StepKeeps(c, tso, e);
    if c.t.dupAcks == 2 { ThirdResends(c, tso, e); } else { EarlyDuplicate(c, tso, e); }
  }

  // ---------------------------------------------------------------------------------------------
  // Counting duplicates, and the clock of the timeout
  // ---------------------------------------------------------------------------------------------

  lemma RecordCounts(t: Tcp, e: Event)
    requires Shape(t) && e.FromGuest? && e.header.flags.ack && !e.header.flags.syn && !e.header.flags.rst
    ensures var r := AckFromGuest(t, e.header, e.payload == [], e.now);
            && r.dupAcks == (if r.seqUna != t.seqUna then 0
                             else if Duplicates(t, e) then (t.dupAcks + 1) % 3 else t.dupAcks)
            && r.lastProgress == (if r.seqUna != t.seqUna then e.now else t.lastProgress)
  {
    if 0 < Wrap32(e.header.ackno - t.seqUna) <= MaxAdvance(t) {
      RecordMoves(t.(guestWindow := ScaledWindow(t, e.header.window)), Wrap32(e.header.ackno - t.seqUna), e.now);
    }
  }

  lemma RecordMoves(t: Tcp, advance: nat, now: nat)
    requires t.sentUnacked <= |t.queue| < TWO32 - 1 && 0 < advance <= MaxAdvance(t)
    ensures var r := Advance(t, advance, now);
            r.seqUna != t.seqUna && r.dupAcks == 0 && r.lastProgress == now
  {
    var n := Min(advance, t.sentUnacked);
    PositionMoves(t.seqUna, n, advance > n);
    var acked := AckData(t, n, now);
    assert Advance(t, advance, now) == if advance > n then AckFin(acked) else acked;
  }

  lemma PositionMoves(una: u32, n: nat, fin: bool)
    requires n < TWO32 - 1 && (n > 0 || fin)
    ensures una != if fin then Wrap32(Wrap32(una + n) + 1) else Wrap32(una + n)
  {
    WrapAdd(una + n, 1);
    WrapInjective(una, una + n + if fin then 1 else 0);
  }

  lemma ForwardStamps(c: Conn, budget: nat, drained: bool, tso: bool, now: nat)
    requires c.t.sentUnacked <= |c.t.queue| && c.t.guestMss > 0 && budget > 0
    ensures var c' := AfterFill(c, budget, drained, tso, now);
            c'.t.lastProgress == if Bare(c'.io.tap, |c.io.tap|) then c.t.lastProgress else now
  {
    if c.gone.None? {
      if c.t.sentUnacked == |c.t.queue| {
        if c.t.hostEof && c.t.sentUnacked == 0 {
          assert AfterFill(c, budget, drained, tso, now).io.tap[|c.io.tap|].flags.fin;
        }
      } else {
        SendNewStamps(c, budget, drained, tso, now);
      }
    }
  }

  lemma SendNewStamps(c: Conn, budget: nat, drained: bool, tso: bool, now: nat)
    requires c.t.sentUnacked < |c.t.queue| && c.t.guestMss > 0 && budget > 0
    ensures var c' := SendNew(c, budget, drained, tso, now);
            c'.t.lastProgress == now && !Bare(c'.io.tap, |c.io.tap|)
  {
    var c' := SendNew(c, budget, drained, tso, now);
    var sent, len := c.t.sentUnacked, SendLen(c.t, budget);
    var segs := Cut(c.t.queue[sent..sent + len], FramingOf(c, len, tso), SendOffset(c));
    assert c'.io.tap[|c.io.tap|] == segs[0] && segs[0].payload != [];
  }

  lemma SendStamps(c: Conn, recv: Recv, tso: bool, now: nat)
    requires c.t.sentUnacked <= |c.t.queue| && c.t.guestMss > 0
    ensures var c' := DataToGuest(c, recv, tso, now);
            c'.t.lastProgress == if Bare(c'.io.tap, |c.io.tap|) then c.t.lastProgress else now
  {
    if MaySend(c.t) {
      var c1, drained, budget := Fill(c, recv).0, Fill(c, recv).1, c.t.guestWindow - c.t.sentUnacked;
      FillFrame(c, recv);
      FillBeyond(c, recv);
      ForwardStamps(c1, budget, drained, tso, now);
      ForwardExtends(c1, budget, drained, tso, now);
      BareAfter(c.io.tap, c1.io.tap, AfterFill(c1, budget, drained, tso, now).io.tap);
    }
  }

  lemma BareAfter(tap: seq<Segment>, tap1: seq<Segment>, tap2: seq<Segment>)
    requires tap <= tap1 <= tap2 && Bare(tap1, |tap|)
    ensures Bare(tap2, |tap|) <==> Bare(tap2, |tap1|)
  {
    assert forall i :: 0 <= i < |tap1| ==> tap2[i] == tap1[i];
  }

  /**
    A segment restarts the count of duplicates if it moves the ack position, and the clock of the timeout if
    it does or if data or a FIN goes out.
   */
  lemma SegmentCounts(c: Conn, tso: bool, e: Event)
    requires Inv(c) && IsSegment(c, e)
    ensures var c' := Step(c, tso, e);
            && c'.t.dupAcks == (if c'.t.seqUna != c.t.seqUna then 0
                                else if Duplicates(c.t, e) then (c.t.dupAcks + 1) % 3 else c.t.dupAcks)
            && c'.t.lastProgress == (if c'.t.seqUna != c.t.seqUna || !Bare(c'.io.tap, |c.io.tap|) then e.now
                                     else c.t.lastProgress)
  {
    var c1 := AfterAck(c, e.header, e.payload, e.now);
    var c2 := Upload(c1, e.header, e.payload, e.accept);
    SegmentStep(c, tso, e);
    AfterAckFrame(c, e.header, e.payload, e.now);
    if e.header.flags.ack { RecordCounts(c.t, e); }
    UploadBare(c1, e.header, e.payload, e.accept);
    UploadClock(c1, e.header, e.payload, e.accept);
    DataToGuestFrame(c2, e.recv, tso, e.now);
    SendStamps(c2, e.recv, tso, e.now);
    DataToGuestExtends(c2, e.recv, tso, e.now);
    BareAfter(c.io.tap, c2.io.tap, DataToGuest(c2, e.recv, tso, e.now).io.tap);
  }

  lemma UploadClock(c: Conn, h: Header, payload: seq<byte>, accept: nat)
    ensures var r := Upload(c, h, payload, accept);
            r.t.lastProgress == c.t.lastProgress && r.t.dupAcks == c.t.dupAcks && r.t.seqUna == c.t.seqUna
  {
    var n := Accepted(c, h, payload, accept);
    var defer := payload != [] && n == |payload| && !h.flags.psh && !c.t.ackDeferred;
    var fin := h.flags.fin && n == |payload|;
    UploadParts(c, h, payload, accept, n, defer, fin, fin || (payload != [] && !defer));
    TookClock(c, h, payload, n, defer, fin);
  }

  lemma TookClock(c: Conn, h: Header, payload: seq<byte>, n: nat, defer: bool, fin: bool)
    requires n <= |payload|
    ensures var r := Took(c, h, payload, n, defer, fin);
            r.t.lastProgress == c.t.lastProgress && r.t.dupAcks == c.t.dupAcks && r.t.seqUna == c.t.seqUna
  {
  }

  /** Acks go out at the send position: that of before, seen from where the guest's ack has moved to. */
  lemma AckAtSendPosition(c: Conn, tso: bool, e: Event)
    requires Inv(c) && IsSegment(c, e) && AckedAtOnce(c, e)
    ensures var c', n := Step(c, tso, e), |c.io.tap|;
            n < |c'.io.tap| && c'.io.tap[n].seqno == Wrap32(c'.t.seqUna + SendOffset(c) - AckedBytes(c'))
  {
    var c1 := AfterAck(c, e.header, e.payload, e.now);
    var c2 := Upload(c1, e.header, e.payload, e.accept);
    SegmentStep(c, tso, e);
    AfterAckFrame(c, e.header, e.payload, e.now);
    if e.header.flags.ack { OtherRecord(c.t, e); }
    UploadAnswers(c1, e.header, e.payload, e.accept, e);
    UploadClock(c1, e.header, e.payload, e.accept);
    UploadStays(c1, e.header, e.payload, e.accept);
    DataToGuestFrame(c2, e.recv, tso, e.now);
    DataToGuestExtends(c2, e.recv, tso, e.now);
    SendKeepsAcked(c2, e.recv, tso, e.now);
  }

  // ---------------------------------------------------------------------------------------------
  // Timer
  // ---------------------------------------------------------------------------------------------

  /** A tick sends a deferred ack first, at the send position. */
  lemma TickAcks(c: Conn, tso: bool, e: Event)
    requires Inv(c) && c.gone.None? && e.TimerTick? && e.now >= RTO && c.t.ackDeferred
    ensures var c', n := Step(c, tso, e), |c.io.tap|;
            && !c'.t.ackDeferred && n < |c'.io.tap| && BareAck(c'.io.tap[n], c.t.seqFromGuest)
            && c'.io.tap[n].seqno == Wrap32(c.t.seqUna + c.t.sentUnacked)
  {
    var f := FlushAck(c);
    FlushKeeps(c);
    StaleExtends(f, e.recv, tso, e.now);
    assert f.io.tap[|c.io.tap|] == Control(c.(t := c.t.(ackDeferred := false)), ACK);
  }

  lemma StaleExtends(c: Conn, recv: Recv, tso: bool, now: nat)
    requires Inv(c)
    ensures var c' := HandleStale(c, recv, tso, now);
            c.io.tap <= c'.io.tap && c'.t.ackDeferred == c.t.ackDeferred
  {
    DataToGuestExtends(Rewind(c, now), recv, tso, now);
    DataToGuestFrame(Rewind(c, now), recv, tso, now);
  }

  /** The last segment of a tick, which comes behind a deferred ack if there is one. */
  ghost predicate TickSends(c: Conn, c': Conn, flags: Flags, seqno: u32, now: nat) {
    && c'.t == c.t.(ackDeferred := false, lastProgress := now) && c'.gone == c.gone
    && |c'.io.tap| == |c.io.tap| + (if c.t.ackDeferred then 2 else 1) && c.io.tap <= c'.io.tap
    && var s := c'.io.tap[|c'.io.tap| - 1];
       s.flags == flags && s.seqno == seqno && s.payload == [] && s.ackno == c.t.seqFromGuest
  }

  /** A FIN that was not acked for a timeout goes out again, at its own position. */
  lemma TickResendsItsFin(c: Conn, tso: bool, e: Event)
    requires Inv(c) && c.gone.None? && e.TimerTick? && c.t.lastProgress + RTO < e.now && c.t.hostFin.Sent?
    ensures TickSends(c, Step(c, tso, e), FIN_ACK, c.t.seqUna, e.now)
  {
    assert Wrap32(c.t.seqUna + c.t.sentUnacked) == c.t.seqUna;
    assert Step(c, tso, e) == SendControl(FlushAck(c).(t := FlushAck(c).t.(lastProgress := e.now)), FIN_ACK);
  }

  /** A closed window is probed with the sequence number before the oldest unacked byte. */
  lemma TickProbesWindow(c: Conn, tso: bool, e: Event)
    requires Inv(c) && c.gone.None? && e.TimerTick? && c.t.lastProgress + RTO < e.now
    requires c.t.state.Established? && c.t.guestWindow == 0 && c.t.sentUnacked == 0 && !c.t.hostFin.Sent?
    ensures TickSends(c, Step(c, tso, e), ACK, Wrap32(c.t.seqUna - 1), e.now)
  {
    assert Step(c, tso, e) == SendProbe(FlushAck(c).(t := FlushAck(c).t.(lastProgress := e.now)));
  }

  /** A flow that waits for nothing but its socket, or not for long enough yet, is left alone. */
  lemma TickLeavesAlone(c: Conn, tso: bool, e: Event)
    requires Inv(c) && c.gone.None? && e.TimerTick? && !c.t.ackDeferred
    requires c.t.lastProgress + RTO >= e.now
             || (c.t.sentUnacked == 0 && !c.t.hostFin.Sent? && (c.t.guestWindow > 0 || c.t.state.Connecting?))
    ensures Step(c, tso, e) == c
  {
  }

  // ---------------------------------------------------------------------------------------------
  // Windows and frame sizes
  // ---------------------------------------------------------------------------------------------

  /** Each step of the guest's window scale doubles what a window field stands for. */
  lemma ScaleDoubles(window: u16, scale: nat)
    ensures Scaled(window, None) == Scaled(window, Some(0)) == window
    ensures Scaled(window, Some(scale + 1)) == 2 * Scaled(window, Some(scale))
  {
    assert Shift(scale + 1) == 2 * Shift(scale);
  }

  /** Data frames from position `from` on are as large as they may be, except the last. */
  ghost predicate AllFull(segs: seq<Segment>, full: nat) {
    forall i :: 0 <= i < |segs| - 1 ==> |segs[i].payload| == full
  }

  lemma {:induction false} CutFull(data: seq<byte>, how: Framing, at: int)
    requires how.chunk > 0
    ensures AllFull(Cut(data, how, at), how.chunk) && (|data| <= how.chunk ==> |Cut(data, how, at)| <= 1)
    decreases |data|
  {
    if |data| > how.chunk {
      var rest := Cut(data[how.chunk..], how, at + how.chunk);
      CutFull(data[how.chunk..], how, at + how.chunk);
      forall i | 0 <= i < |rest| ensures |Cut(data, how, at)[i].payload| == how.chunk {
        if i > 0 { assert Cut(data, how, at)[i] == rest[i - 1]; }
      }
    } else if data != [] {
      assert data[|data|..] == [];
    }
  }

  /**
    Frames are as large as can be: with segmentation offload all but the last of one send fill the IP length
    field, without it they fill the guest's MSS; offload is asked for exactly if one MSS is not enough.
   */
  lemma BurstIsFull(c: Conn, budget: nat, tso: bool)
    requires Shape(c.t) && c.t.sentUnacked < |c.t.queue| && budget > 0
    ensures var segs, len := NewSegments(c, budget, tso), Min(|c.t.queue| - c.t.sentUnacked, budget);
            && AllFull(segs, if tso then MAX_PAYLOAD else Min(c.t.guestMss, MAX_PAYLOAD))
            && (forall s :: s in segs ==> s.gso == if tso && len > c.t.guestMss then Some(c.t.guestMss) else None)
  {
    var sent, len := c.t.sentUnacked, SendLen(c.t, budget);
    CutFull(c.t.queue[sent..sent + len], FramingOf(c, len, tso), SendOffset(c));
    CutGso(c.t.queue[sent..sent + len], FramingOf(c, len, tso), SendOffset(c));
  }

  lemma {:induction false} CutGso(data: seq<byte>, how: Framing, at: int)
    requires how.chunk > 0
    ensures forall s :: s in Cut(data, how, at) ==> s.gso == how.gso
    decreases |data|
  {
    if data != [] {
      var len := Min(how.chunk, |data|);
      CutGso(data[len..], how, at + len);
    }
  }
}
