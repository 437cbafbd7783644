/**
  What one event does to a flow, said of the whole step: the bytes the host socket takes, the bytes read
  from it, the segments that go out, and when the flow ends.
 */
module TcpEffects {
  import opened Words
  import opened Buffers
  import opened TcpModel
  import opened TcpInvariant

  // ---------------------------------------------------------------------------------------------
  // From the guest to the host socket
  // ---------------------------------------------------------------------------------------------

  /** A guest segment that an established flow looks into. */
  predicate IsSegment(c: Conn, e: Event) {
    c.gone.None? && c.t.state.Established? && e.FromGuest? && !e.header.flags.syn && !e.header.flags.rst
  }

  /** The segment starts where the flow expects the next byte, and the host socket can still be written to. */
  predicate InOrder(c: Conn, e: Event)
    requires e.FromGuest?
  {
    e.header.seqno == c.t.seqFromGuest && c.io.shutAt.None?
  }

  /** How many bytes the host socket takes of it. */
  function Taken(c: Conn, e: Event): (k: nat)
    requires e.FromGuest?
    ensures k <= |e.payload|
  {
    if InOrder(c, e) then Min(e.accept, |e.payload|) else 0
  }

  /** Its FIN counts: everything before it was taken. */
  predicate FinCounts(c: Conn, e: Event)
    requires e.FromGuest?
  {
    InOrder(c, e) && e.header.flags.fin && Taken(c, e) == |e.payload|
  }

  /** The upload side up to the ack: payload, deferral and FIN. */
  ghost function Took(c: Conn, h: Header, payload: seq<byte>, n: nat, defer: bool, fin: bool): Conn
    requires n <= |payload|
  {
    var c1 := TakePayload(c, payload, n);
    var c2 := if defer then c1.(t := c1.t.(ackDeferred := true)) else c1;
    if fin then TakeFin(c2, h, payload) else c2
  }

  lemma UploadParts(c: Conn, h: Header, payload: seq<byte>, accept: nat, n: nat, defer: bool, fin: bool, now: bool)
    requires n == Accepted(c, h, payload, accept) && fin == (h.flags.fin && n == |payload|)
    requires defer == (payload != [] && n == |payload| && !h.flags.psh && !c.t.ackDeferred)
    requires now == (fin || (payload != [] && !defer))
    ensures var c3 := Took(c, h, payload, n, defer, fin);
            Upload(c, h, payload, accept)
            == if now then SendControl(c3.(t := c3.t.(ackDeferred := false)), ACK) else c3
  {
  }

  lemma TookMoves(c: Conn, h: Header, payload: seq<byte>, n: nat, defer: bool, fin: bool)
    requires n <= |payload|
    ensures var r := Took(c, h, payload, n, defer, fin);
            var counts := fin && !c.t.guestFin && Wrap32(h.seqno + |payload|) == Wrap32(c.t.seqFromGuest + n);
            && r.io.toHost == c.io.toHost + payload[..n] && r.gone == c.gone
            && r.t.seqFromGuest == Wrap32(c.t.seqFromGuest + n + if counts then 1 else 0)
            && r.t.guestFin == (c.t.guestFin || counts)
            && r.io.shutAt == if counts then Some(|r.io.toHost|) else c.io.shutAt
  {
    WrapAdd(c.t.seqFromGuest + n, 1);
  }

  lemma TookRest(c: Conn, h: Header, payload: seq<byte>, n: nat, defer: bool, fin: bool)
    requires n <= |payload|
    ensures var r := Took(c, h, payload, n, defer, fin);
            && r.t.ackDeferred == (c.t.ackDeferred || defer) && r.io.tap == c.io.tap
            && r.t.seqUna == c.t.seqUna && r.t.sentUnacked == c.t.sentUnacked
  {
  }

  /** The FIN's own test is met exactly by a segment in order. */
  lemma FinInOrder(c: Conn, e: Event, n: nat)
    requires UploadOk(c) && e.FromGuest? && n == Taken(c, e)
    ensures FinCounts(c, e) <==>
              && e.header.flags.fin && n == |e.payload| && !c.t.guestFin
              && Wrap32(e.header.seqno + |e.payload|) == Wrap32(c.t.seqFromGuest + n)
  {
  }

  lemma UploadMoves(c: Conn, h: Header, payload: seq<byte>, accept: nat, e: Event)
    requires UploadOk(c) && e.FromGuest? && e.header == h && e.payload == payload && e.accept == accept
    ensures Moves(c, Upload(c, h, payload, accept), e)
  {
    var n := Taken(c, e);
    var defer := payload != [] && n == |payload| && !h.flags.psh && !c.t.ackDeferred;
    var fin := h.flags.fin && n == |payload|;
    UploadParts(c, h, payload, accept, n, defer, fin, fin || (payload != [] && !defer));
    TookMoves(c, h, payload, n, defer, fin);
    FinInOrder(c, e, n);
  }

  /** From `c` to `c'` the host socket took what it accepted of the segment, and the flow counts exactly that. */
  ghost predicate Moves(c: Conn, c': Conn, e: Event)
    requires e.FromGuest?
  {
    var k := Taken(c, e);
    && c'.io.toHost == c.io.toHost + e.payload[..k]
    && c'.t.seqFromGuest == Wrap32(c.t.seqFromGuest + k + if FinCounts(c, e) then 1 else 0)
    && c'.t.guestFin == (c.t.guestFin || FinCounts(c, e))
    && c'.io.shutAt == if FinCounts(c, e) then Some(|c'.io.toHost|) else c.io.shutAt
  }

  /** A segment: its ack, its payload and FIN, and then the other direction. */
  lemma SegmentStep(c: Conn, tso: bool, e: Event)
    requires Inv(c) && IsSegment(c, e)
    ensures var c1 := AfterAck(c, e.header, e.payload, e.now);
            Step(c, tso, e)
            == MaybeClose(DataToGuest(Upload(c1, e.header, e.payload, e.accept), e.recv, tso, e.now))
  {
  }

  /**
    Partial writes.  Of an in-order segment the host socket has taken exactly what it accepted, and the flow
    counts exactly that; the FIN counts once everything before it was taken.  A segment out of order, or
    one after the shutdown, changes nothing on this side.
   */
  lemma SegmentTaken(c: Conn, tso: bool, e: Event)
    requires Inv(c) && IsSegment(c, e)
    ensures Moves(c, Step(c, tso, e), e)
  {
    var c1 := AfterAck(c, e.header, e.payload, e.now);
    var c2 := Upload(c1, e.header, e.payload, e.accept);
    SegmentStep(c, tso, e);
    AfterAckFrame(c, e.header, e.payload, e.now);
    UploadMoves(c1, e.header, e.payload, e.accept, e);
    DataToGuestFrame(c2, e.recv, tso, e.now);
    MovesFrom(c, c1, c2, Step(c, tso, e), e);
  }

  lemma MovesFrom(c: Conn, c1: Conn, c2: Conn, c': Conn, e: Event)
    requires e.FromGuest? && Moves(c1, c2, e) && SameUpload(c, c1) && SameUpload(c2, c')
    ensures Moves(c, c', e)
  {
  }

  ghost predicate SameUpload(c: Conn, c': Conn) {
    && c'.io.toHost == c.io.toHost && c'.t.seqFromGuest == c.t.seqFromGuest
    && c'.t.guestFin == c.t.guestFin && c'.io.shutAt == c.io.shutAt
  }

  /** Nothing else writes to the host socket. */
  lemma OthersTakeNothing(c: Conn, tso: bool, e: Event)
    requires Inv(c) && !IsSegment(c, e)
    ensures SameUpload(c, Step(c, tso, e))
  {
    if c.gone.None? {
      match e
      case FromGuest(_, _, _, _, _) =>
      case SocketReady(pollErr, pollHup, sockErr, recv, now) =>
        ReadyTakesNothing(c, pollErr, pollHup, sockErr, recv, tso, now);
      case PollFailed =>
      case TimerTick(recv, now) => TimerTakesNothing(c, recv, tso, now);
    }
  }

  lemma ReadyTakesNothing(c: Conn, pollErr: bool, pollHup: bool, sockErr: bool, recv: Recv, tso: bool, now: nat)
    requires Inv(c)
    ensures SameUpload(c, HandleReady(c, pollErr, pollHup, sockErr, recv, tso, now))
  {
    DataToGuestFrame(c.(t := c.t.(pollArmed := false)), recv, tso, now);
  }

  lemma TimerTakesNothing(c: Conn, recv: Recv, tso: bool, now: nat)
    requires Inv(c)
    ensures SameUpload(c, HandleTimer(c, recv, tso, now))
  {
    var f := FlushAck(c);
    assert SameUpload(c, f);
    StaleTakesNothing(f, recv, tso, now);
  }

  lemma StaleTakesNothing(c: Conn, recv: Recv, tso: bool, now: nat)
    requires c.t.sentUnacked <= |c.t.queue| && c.t.guestMss > 0
    ensures SameUpload(c, HandleStale(c, recv, tso, now))
  {
    DataToGuestFrame(Rewind(c, now), recv, tso, now);
  }

  /** The flow once the ack field of a segment is dealt with. */
  ghost function AfterAck(c: Conn, h: Header, payload: seq<byte>, now: nat): Conn
    requires c.t.sentUnacked <= |c.t.queue|
  {
    if h.flags.ack then c.(t := AckFromGuest(c.t, h, payload == [], now)) else c
  }

  lemma AfterAckFrame(c: Conn, h: Header, payload: seq<byte>, now: nat)
    requires Inv(c) && c.t.state.Established?
    ensures var c1 := AfterAck(c, h, payload, now);
            && Inv(c1) && c1.io == c.io && c1.gone == c.gone && c1.t.state == c.t.state
            && c1.t.seqFromGuest == c.t.seqFromGuest && c1.t.guestFin == c.t.guestFin
            && c1.t.ackDeferred == c.t.ackDeferred && c1.t.hostEof == c.t.hostEof && c1.t.pollArmed == c.t.pollArmed
            && |c1.t.queue| <= |c.t.queue| && (c.t.hostFin.NotSent? <==> c1.t.hostFin.NotSent?)
  {
    if h.flags.ack {
      AckKeeps(c, h, payload == [], now);
      var n := AckFrame(c.t, h, payload == [], now);
    }
  }

  // ---------------------------------------------------------------------------------------------
  // Acks of guest data
  // ---------------------------------------------------------------------------------------------

  /** Whether a segment is acked at once: data that may not wait for the next frame, or a FIN in reach. */
  predicate AckedAtOnce(c: Conn, e: Event)
    requires e.FromGuest?
  {
    var all := Taken(c, e) == |e.payload|;
    || (e.payload != [] && !(all && !e.header.flags.psh && !c.t.ackDeferred))
    || (e.header.flags.fin && all)
  }

  ghost predicate BareAck(s: Segment, ackno: u32) { s.flags == ACK && s.payload == [] && s.ackno == ackno }

  lemma UploadAnswers(c: Conn, h: Header, payload: seq<byte>, accept: nat, e: Event)
    requires e.FromGuest? && e.header == h && e.payload == payload && e.accept == accept
    ensures var r := Upload(c, h, payload, accept);
            && r.t.ackDeferred == (!AckedAtOnce(c, e) && (c.t.ackDeferred || payload != []))
            && c.io.tap <= r.io.tap
            && (AckedAtOnce(c, e) ==>
                  && |r.io.tap| > |c.io.tap| && BareAck(r.io.tap[|c.io.tap|], r.t.seqFromGuest)
                  && r.io.tap[|c.io.tap|].seqno == Wrap32(c.t.seqUna + c.t.sentUnacked))
  {
    var n := Taken(c, e);
    var defer := payload != [] && n == |payload| && !h.flags.psh && !c.t.ackDeferred;
    var fin := h.flags.fin && n == |payload|;
    UploadParts(c, h, payload, accept, n, defer, fin, AckedAtOnce(c, e));
    TookRest(c, h, payload, n, defer, fin);
  }

  /**
    Delayed acks.  A segment is acked at once exactly if its data was not taken in full, is pushed, or is the
    second in a row, or if it brings a FIN with nothing missing; otherwise its ack is deferred.
   */
  lemma SegmentAcked(c: Conn, tso: bool, e: Event)
    requires Inv(c) && IsSegment(c, e)
    ensures var c', n := Step(c, tso, e), |c.io.tap|;
            && c'.t.ackDeferred == (!AckedAtOnce(c, e) && (c.t.ackDeferred || e.payload != []))
            && (AckedAtOnce(c, e) ==> n < |c'.io.tap| && BareAck(c'.io.tap[n], c'.t.seqFromGuest))
  {
    var c1 := AfterAck(c, e.header, e.payload, e.now);
    var c2 := Upload(c1, e.header, e.payload, e.accept);
    SegmentStep(c, tso, e);
    AfterAckFrame(c, e.header, e.payload, e.now);
    UploadAnswers(c1, e.header, e.payload, e.accept, e);
    DataToGuestFrame(c2, e.recv, tso, e.now);
    DataToGuestExtends(c2, e.recv, tso, e.now);
  }

  lemma DataToGuestExtends(c: Conn, recv: Recv, tso: bool, now: nat)
    requires c.t.sentUnacked <= |c.t.queue| && c.t.guestMss > 0
    ensures c.io.tap <= DataToGuest(c, recv, tso, now).io.tap
  {
    if MaySend(c.t) {
      FillExtends(c, recv);
      FillFrame(c, recv);
      ForwardExtends(Fill(c, recv).0, c.t.guestWindow - c.t.sentUnacked, Fill(c, recv).1, tso, now);
    }
  }

  lemma FillExtends(c: Conn, recv: Recv)
    ensures c.io.tap <= Fill(c, recv).0.io.tap
  {
  }

  lemma ForwardExtends(c: Conn, budget: nat, drained: bool, tso: bool, now: nat)
    requires c.t.sentUnacked <= |c.t.queue| && c.t.guestMss > 0 && budget > 0
    ensures c.io.tap <= AfterFill(c, budget, drained, tso, now).io.tap
  {
  }

  // ---------------------------------------------------------------------------------------------
  // From the host socket
  // ---------------------------------------------------------------------------------------------

  /**
    What a read that was answered with `recv` may change: bytes join the stream in order, all that were
    waiting or as many as the buffer takes; only EOF ends the stream.
   */
  ghost predicate ReadBy(c: Conn, c': Conn, recv: Recv) {
    var k := |c'.io.fromHost| - |c.io.fromHost|;
    && k >= 0 && (k == 0 ==> c'.io.fromHost == c.io.fromHost)
    && (k > 0 ==>
          && recv.Data? && k <= |recv.waiting| && c'.io.fromHost == c.io.fromHost + recv.waiting[..k]
          && (k == |recv.waiting| || |c'.t.queue| == FRAME))
    && (c.t.hostEof ==> c'.t.hostEof)
    && (c'.t.hostEof && !c.t.hostEof ==> recv.Eof?)
  }

  /** The flow ended with a reset: an RST at the send position is the last segment. */
  ghost predicate EndsInReset(c: Conn) {
    && c.gone == Some(ByError) && c.io.tap != []
    && var s := c.io.tap[|c.io.tap| - 1];
       s.flags == RST_ACK && s.payload == [] && s.ackno == c.t.seqFromGuest
       && s.seqno == Wrap32(c.t.seqUna + c.t.sentUnacked)
  }

  lemma ResetEnds(c: Conn)
    ensures EndsInReset(Reset(c)) && Reset(c).t == c.t && Reset(c).io.fromHost == c.io.fromHost
  {
  }

  /** The answer had its effect. */
  ghost predicate Answered(c: Conn, c': Conn, recv: Recv) {
    match recv
    case Again => true
    case Failed => c'.gone == Some(ByError)
    case Eof => c'.t.hostEof
    case Data(waiting) => waiting == [] || |c'.io.fromHost| > |c.io.fromHost|
  }

  /** The flow has room, in the guest's window and in its buffer, for bytes that it does not wait for anyway. */
  predicate WantsToRead(t: Tcp) {
    && t.state.Established? && t.hostFin.NotSent? && !t.hostEof && |t.queue| < FRAME
    && t.sentUnacked < t.guestWindow && !(t.pollArmed && t.sentUnacked == |t.queue|)
  }

  /** What one read does, by what it is answered with. */
  lemma FillReads(c: Conn, recv: Recv)
    requires |c.t.queue| <= FRAME && c.gone.None?
    ensures var c' := Fill(c, recv).0;
            && ReadBy(c, c', recv)
            && (c'.gone.Some? ==> recv.Failed? && EndsInReset(c'))
            && (Answered(c, c', recv) || c'.t.hostEof || |c'.t.queue| == FRAME)
  {
    if !c.t.hostEof && |c.t.queue| < FRAME {
      match recv
      case Again =>
      case Failed => ResetEnds(c);
      case Eof =>
      case Data(waiting) =>
    }
  }

  lemma ForwardReads(c: Conn, budget: nat, drained: bool, tso: bool, now: nat)
    requires c.t.sentUnacked <= |c.t.queue| && c.t.guestMss > 0 && budget > 0
    ensures var c' := AfterFill(c, budget, drained, tso, now);
            && c'.io.fromHost == c.io.fromHost && c'.t.hostEof == c.t.hostEof && c'.t.queue == c.t.queue
            && c'.gone == c.gone && (c.gone.Some? ==> c' == c)
  {
  }

  /** What a call that reads and then sends makes of the answer. */
  ghost predicate Reads(c: Conn, c': Conn, recv: Recv) {
    && ReadBy(c, c', recv)
    && (c'.gone == Some(ByError) ==> recv.Failed? && EndsInReset(c'))
    && (Answered(c, c', recv) || !WantsToRead(c'.t))
  }

  lemma SendReads(c: Conn, recv: Recv, tso: bool, now: nat)
    requires Inv(c) && c.gone.None?
    ensures var c' := DataToGuest(c, recv, tso, now);
            Reads(c, c', recv) && (c'.gone.None? || c'.gone == Some(ByError))
  {
    if MaySend(c.t) {
      var c1, drained, budget := Fill(c, recv).0, Fill(c, recv).1, c.t.guestWindow - c.t.sentUnacked;
      FillReads(c, recv);
      FillFrame(c, recv);
      AfterFillReads(c, c1, recv, budget, drained, tso, now);
      var c' := AfterFill(c1, budget, drained, tso, now);
      assert Reads(c, c', recv);
      assert DataToGuest(c, recv, tso, now) == c';
    } else {
      NoReadDue(c, recv);
      assert DataToGuest(c, recv, tso, now) == c;
    }
  }

  lemma NoReadDue(c: Conn, recv: Recv)
    requires c.gone.None? && !MaySend(c.t)
    ensures Reads(c, c, recv)
  {
  }

  lemma AfterFillReads(c: Conn, c1: Conn, recv: Recv, budget: nat, drained: bool, tso: bool, now: nat)
    requires c1.t.sentUnacked <= |c1.t.queue| && c1.t.guestMss > 0 && budget > 0
    requires c.gone.None? && ReadBy(c, c1, recv) && (c1.gone.Some? ==> recv.Failed? && EndsInReset(c1))
    requires Answered(c, c1, recv) || c1.t.hostEof || |c1.t.queue| == FRAME
    ensures var c' := AfterFill(c1, budget, drained, tso, now);
            Reads(c, c', recv) && (c'.gone.None? || c'.gone == Some(ByError))
  {
    ForwardReads(c1, budget, drained, tso, now);
    ReadsOn(c, c1, AfterFill(c1, budget, drained, tso, now), recv);
  }

  lemma ReadsOn(c: Conn, c1: Conn, c': Conn, recv: Recv)
    requires c.gone.None? && ReadBy(c, c1, recv) && (c1.gone.Some? ==> recv.Failed? && EndsInReset(c1) && c' == c1)
    requires Answered(c, c1, recv) || c1.t.hostEof || |c1.t.queue| == FRAME
    requires c'.io.fromHost == c1.io.fromHost && c'.t.hostEof == c1.t.hostEof && c'.t.queue == c1.t.queue
    requires c'.gone == c1.gone
    ensures Reads(c, c', recv) && (c'.gone.None? || c'.gone == Some(ByError))
  {
  }

  // ---------------------------------------------------------------------------------------------
  // Removal
  // ---------------------------------------------------------------------------------------------

  /** What the host socket answers to a read during the event. */
  function RecvOf(e: Event): Recv {
    match e
    case FromGuest(_, _, _, recv, _) => recv
    case SocketReady(_, _, _, recv, _) => recv
    case PollFailed => Again
    case TimerTick(recv, _) => recv
  }

  /** The event itself says that the host side is broken. */
  predicate HostError(c: Conn, e: Event) {
    || e.PollFailed?
    || (e.SocketReady? && (e.pollErr || e.sockErr || (c.t.state.Connecting? && e.pollHup)))
  }

  /** The event leads to the end of the flow, for the right reason. */
  ghost predicate EndsRightly(c: Conn, c': Conn, e: Event) {
    && (c'.gone == Some(ByGuest) <==> e.FromGuest? && e.header.flags.rst)
    && (c'.gone == Some(ByError) ==> EndsInReset(c') && (HostError(c, e) || RecvOf(e).Failed?))
    && (HostError(c, e) ==> c'.gone == Some(ByError))
    && (c'.gone == Some(ByClose) ==> c'.t.hostFin.Acked? && c'.t.guestFin)
  }

  /** ... and a call that reads, sends and then looks whether both directions are closed. */
  lemma RefillReads(c: Conn, recv: Recv, tso: bool, now: nat)
    requires Inv(c) && c.gone.None?
    ensures var c' := MaybeClose(DataToGuest(c, recv, tso, now));
            && Reads(c, c', recv) && c'.gone != Some(ByGuest)
            && (c'.gone.None? ==> !(c'.t.hostFin.Acked? && c'.t.guestFin))
            && (c'.gone == Some(ByClose) ==> c'.t.hostFin.Acked? && c'.t.guestFin)
  {
    SendReads(c, recv, tso, now);
  }

  /** The flow looks whether there is something to read. */
  predicate LooksForData(c: Conn, e: Event) {
    IsSegment(c, e) || (e.SocketReady? && c.gone.None? && c.t.state.Established? && !HostError(c, e))
  }

  lemma SegmentReads(c: Conn, tso: bool, e: Event)
    requires Inv(c) && IsSegment(c, e)
    ensures var c' := Step(c, tso, e);
            Reads(c, c', e.recv) && EndsRightly(c, c', e) && (c'.gone.None? ==> !(c'.t.hostFin.Acked? && c'.t.guestFin))
  {
    var c1 := AfterAck(c, e.header, e.payload, e.now);
    var c2 := Upload(c1, e.header, e.payload, e.accept);
    SegmentStep(c, tso, e);
    AfterAckFrame(c, e.header, e.payload, e.now);
    UploadKeeps(c1, e.header, e.payload, e.accept);
    UploadStays(c1, e.header, e.payload, e.accept);
    RefillReads(c2, e.recv, tso, e.now);
  }

  lemma UploadStays(c: Conn, h: Header, payload: seq<byte>, accept: nat)
    ensures var r := Upload(c, h, payload, accept);
            r.gone == c.gone && r.io.fromHost == c.io.fromHost && r.t.hostEof == c.t.hostEof
  {
    var n := Accepted(c, h, payload, accept);
    var defer := payload != [] && n == |payload| && !h.flags.psh && !c.t.ackDeferred;
    var fin := h.flags.fin && n == |payload|;
    UploadParts(c, h, payload, accept, n, defer, fin, fin || (payload != [] && !defer));
  }

  lemma ReadyReads(c: Conn, tso: bool, e: Event)
    requires Inv(c) && e.SocketReady? && c.gone.None?
    ensures var c' := Step(c, tso, e);
            && ReadBy(c, c', e.recv) && EndsRightly(c, c', e)
            && (LooksForData(c, e) ==>
                  Reads(c, c', e.recv) && (c'.gone.None? ==> !(c'.t.hostFin.Acked? && c'.t.guestFin)))
  {
    var c1 := c.(t := c.t.(pollArmed := false));
    if HostError(c, e) {
      ResetEnds(c1);
      assert Step(c, tso, e) == Reset(c1);
    } else if c.t.state.Established? {
      RefillReads(c1, e.recv, tso, e.now);
      assert Step(c, tso, e) == MaybeClose(DataToGuest(c1, e.recv, tso, e.now));
    } else {
      assert Step(c, tso, e) == Arm(SendSynAck(c1.(t := c1.t.(state := Established))));
    }
  }

  lemma TickReads(c: Conn, tso: bool, e: Event)
    requires Inv(c) && e.TimerTick? && c.gone.None?
    ensures var c' := Step(c, tso, e);
            ReadBy(c, c', e.recv) && EndsRightly(c, c', e)
  {
    FlushKeeps(c);
    StaleReads(FlushAck(c), tso, e);
  }

  lemma StaleReads(c: Conn, tso: bool, e: Event)
    requires Inv(c) && e.TimerTick? && c.gone.None?
    ensures var c' := HandleStale(c, e.recv, tso, e.now);
            ReadBy(c, c', e.recv) && EndsRightly(c, c', e)
  {
    if c.t.sentUnacked > 0 {
      ReplaceRecord(c, Rewind(c, e.now).t, 0);
      assert Rewind(c, e.now) == c.(t := Rewind(c, e.now).t);
      SendReads(Rewind(c, e.now), e.recv, tso, e.now);
    }
  }

  /**
    Reading and ending.  The stream grows by what the socket had waiting, in order and as much as the buffer
    takes, and ends only on EOF; a read that the flow has room for is never dropped.  A guest RST removes the
    flow; so does an error of the host side, and then an RST, and no FIN, is the last segment.
   */
  lemma StepReads(c: Conn, tso: bool, e: Event)
    requires Inv(c) && c.gone.None?
    ensures var c' := Step(c, tso, e);
            && ReadBy(c, c', RecvOf(e)) && EndsRightly(c, c', e)
            && (LooksForData(c, e) ==> Answered(c, c', RecvOf(e)) || !WantsToRead(c'.t))
  {
    match e
    case FromGuest(_, _, _, _, _) => if IsSegment(c, e) { SegmentReads(c, tso, e); }
    case SocketReady(_, _, _, _, _) => ReadyReads(c, tso, e);
    case PollFailed => ResetEnds(c);
    case TimerTick(_, _) => TickReads(c, tso, e);
  }

  // ---------------------------------------------------------------------------------------------
  // Segments
  // ---------------------------------------------------------------------------------------------

  ghost predicate IsSynAck(s: Segment, ackno: u32, scaled: bool) {
    s.seqno == ISN && s.flags == SYN_ACK && s.ackno == ackno && s.payload == [] && s.options == SynAckOptions(scaled)
  }

  /** Every segment acks what the host has taken so far; only control segments carry flags besides that. */
  ghost predicate WellFormed(s: Segment, ackno: u32) {
    && s.flags.ack && !s.flags.psh && s.ackno == ackno
    && (s.payload != [] ==> s.flags == ACK) && (s.options != [] ==> s.flags == SYN_ACK)
    && (s.flags.syn ==> s.flags == SYN_ACK) && (s.flags.fin ==> s.flags == FIN_ACK)
    && (s.flags.rst ==> s.flags == RST_ACK)
  }

  /** A flow that is not reset puts no RST on the tap, one that is reset no FIN. */
  ghost predicate Proper(c: Conn, c': Conn) {
    && c.io.tap <= c'.io.tap
    && forall i :: |c.io.tap| <= i < |c'.io.tap| ==>
         && WellFormed(c'.io.tap[i], c'.t.seqFromGuest)
         && (c'.io.tap[i].flags.rst ==> c'.gone == Some(ByError) && i == |c'.io.tap| - 1)
         && (c'.io.tap[i].flags.fin ==> c'.gone != Some(ByError))
  }

  /** Segments from before, without a FIN among them, and those that follow. */
  lemma ProperAfter(c: Conn, c1: Conn, c2: Conn)
    requires Proper(c, c1) && Proper(c1, c2) && c1.gone.None? && c2.t.seqFromGuest == c1.t.seqFromGuest
    requires forall i :: |c.io.tap| <= i < |c1.io.tap| ==> !c1.io.tap[i].flags.fin
    ensures Proper(c, c2)
  {
    assert forall i :: 0 <= i < |c1.io.tap| ==> c2.io.tap[i] == c1.io.tap[i];
  }

  lemma {:induction false} CutPlain(data: seq<byte>, how: Framing, at: int)
    requires how.chunk > 0
    ensures forall s :: s in Cut(data, how, at) ==> s.flags == ACK && s.options == [] && s.ackno == how.ackno
    decreases |data|
  {
    if data != [] {
      var len := Min(how.chunk, |data|);
      CutPlain(data[len..], how, at + len);
    }
  }

  lemma AppendedProper(c: Conn, segs: seq<Segment>, c': Conn)
    requires c'.io.tap == c.io.tap + segs && c'.t.seqFromGuest == c.t.seqFromGuest
    requires forall s :: s in segs ==> s.flags == ACK && s.options == [] && s.ackno == c.t.seqFromGuest
    ensures Proper(c, c')
  {
    forall i | |c.io.tap| <= i < |c'.io.tap| ensures c'.io.tap[i] in segs {
      assert c'.io.tap[i] == segs[i - |c.io.tap|];
    }
  }

  lemma SendNewProper(c: Conn, budget: nat, drained: bool, tso: bool, now: nat)
    requires c.t.sentUnacked < |c.t.queue| && budget > 0 && c.t.guestMss > 0
    ensures Proper(c, SendNew(c, budget, drained, tso, now))
  {
    var sent, len := c.t.sentUnacked, SendLen(c.t, budget);
    CutPlain(c.t.queue[sent..sent + len], FramingOf(c, len, tso), SendOffset(c));
    AppendedProper(c, NewSegments(c, budget, tso), SendNew(c, budget, drained, tso, now));
  }

  lemma ForwardProper(c: Conn, budget: nat, drained: bool, tso: bool, now: nat)
    requires c.t.sentUnacked <= |c.t.queue| && c.t.guestMss > 0 && budget > 0 && c.gone.None?
    ensures Proper(c, Forward(c, budget, drained, tso, now))
  {
    if c.t.sentUnacked < |c.t.queue| { SendNewProper(c, budget, drained, tso, now); }
  }

  lemma SendProper(c: Conn, recv: Recv, tso: bool, now: nat)
    requires c.t.sentUnacked <= |c.t.queue| && c.t.guestMss > 0 && c.gone.None?
    ensures Proper(c, DataToGuest(c, recv, tso, now))
  {
    if MaySend(c.t) {
      var c1, drained := Fill(c, recv).0, Fill(c, recv).1;
      FillFrame(c, recv);
      FillTap(c, recv);
      AfterFillProper(c, c1, c.t.guestWindow - c.t.sentUnacked, drained, tso, now);
    }
  }

  lemma AfterFillProper(c: Conn, c1: Conn, budget: nat, drained: bool, tso: bool, now: nat)
    requires c1.t.sentUnacked <= |c1.t.queue| && c1.t.guestMss > 0 && budget > 0
    requires Proper(c, c1) && (c1.gone.None? ==> c1.io.tap == c.io.tap)
    ensures Proper(c, AfterFill(c1, budget, drained, tso, now))
  {
    if c1.gone.None? { ForwardProper(c1, budget, drained, tso, now); }
  }

  lemma FillTap(c: Conn, recv: Recv)
    requires c.gone.None?
    ensures var c' := Fill(c, recv).0;
            Proper(c, c') && (c'.gone.None? ==> c'.io.tap == c.io.tap)
  {
  }

  lemma RefillProper(c: Conn, recv: Recv, tso: bool, now: nat)
    requires c.t.sentUnacked <= |c.t.queue| && c.t.guestMss > 0 && c.gone.None?
    ensures Proper(c, MaybeClose(DataToGuest(c, recv, tso, now)))
  {
    SendProper(c, recv, tso, now);
  }

  lemma UploadProper(c: Conn, h: Header, payload: seq<byte>, accept: nat)
    requires c.gone.None?
    ensures var r := Upload(c, h, payload, accept);
            Proper(c, r) && forall i :: |c.io.tap| <= i < |r.io.tap| ==> !r.io.tap[i].flags.fin
  {
    var n := Accepted(c, h, payload, accept);
    var defer := payload != [] && n == |payload| && !h.flags.psh && !c.t.ackDeferred;
    var fin := h.flags.fin && n == |payload|;
    UploadParts(c, h, payload, accept, n, defer, fin, fin || (payload != [] && !defer));
    TookRest(c, h, payload, n, defer, fin);
    TookMoves(c, h, payload, n, defer, fin);
  }

  lemma SegmentProper(c: Conn, tso: bool, e: Event)
    requires Inv(c) && IsSegment(c, e)
    ensures Proper(c, Step(c, tso, e))
  {
    var c1 := AfterAck(c, e.header, e.payload, e.now);
    var c2 := Upload(c1, e.header, e.payload, e.accept);
    SegmentStep(c, tso, e);
    AfterAckFrame(c, e.header, e.payload, e.now);
    UploadStays(c1, e.header, e.payload, e.accept);
    UploadProper(c1, e.header, e.payload, e.accept);
    RefillProper(c2, e.recv, tso, e.now);
    DataToGuestFrame(c2, e.recv, tso, e.now);
    ProperAfter(c1, c2, Step(c, tso, e));
  }

  lemma StaleProper(c: Conn, recv: Recv, tso: bool, now: nat)
    requires Inv(c) && c.gone.None?
    ensures Proper(c, HandleStale(c, recv, tso, now))
    ensures HandleStale(c, recv, tso, now).t.seqFromGuest == c.t.seqFromGuest
  {
    SendProper(Rewind(c, now), recv, tso, now);
    DataToGuestFrame(Rewind(c, now), recv, tso, now);
  }

  lemma TimerProper(c: Conn, recv: Recv, tso: bool, now: nat)
    requires Inv(c) && c.gone.None?
    ensures Proper(c, HandleTimer(c, recv, tso, now))
  {
    var f := FlushAck(c);
    FlushKeeps(c);
    StaleProper(f, recv, tso, now);
    ProperAfter(c, f, HandleStale(f, recv, tso, now));
  }

  lemma ReadyProper(c: Conn, pollErr: bool, pollHup: bool, sockErr: bool, recv: Recv, tso: bool, now: nat)
    requires Inv(c) && c.gone.None?
    ensures Proper(c, HandleReady(c, pollErr, pollHup, sockErr, recv, tso, now))
  {
    RefillProper(c.(t := c.t.(pollArmed := false)), recv, tso, now);
  }

  /** Whatever a flow puts on the tap acks what the host has taken, and only a reset ends in an RST. */
  lemma StepProper(c: Conn, tso: bool, e: Event)
    requires Inv(c)
    ensures Proper(c, Step(c, tso, e))
  {
    if c.gone.None? {
      match e
      case FromGuest(_, _, _, _, _) => if IsSegment(c, e) { SegmentProper(c, tso, e); }
      case SocketReady(pollErr, pollHup, sockErr, recv, now) =>
        ReadyProper(c, pollErr, pollHup, sockErr, recv, tso, now);
      case PollFailed =>
      case TimerTick(recv, now) => TimerProper(c, recv, tso, now);
    }
  }

  // ---------------------------------------------------------------------------------------------
  // Handshake
  // ---------------------------------------------------------------------------------------------

  /**
    The handshake.  Before the host has accepted the connection a flow answers nothing and changes nothing;
    once it has, a SYN-ACK with the initial sequence number acks the guest's SYN, and our stream starts
    right behind it.
   */
  lemma Handshake(c: Conn, tso: bool, e: Event)
    requires Inv(c) && c.gone.None? && c.t.state.Connecting?
    ensures var c' := Step(c, tso, e);
            if e.SocketReady? && !HostError(c, e) then
              && c'.gone.None? && c'.t.state.Established? && c'.t.pollArmed && c'.t.seqUna == ISN + 1
              && |c'.io.tap| == |c.io.tap| + 1 && c'.io.tap[..|c.io.tap|] == c.io.tap
              && IsSynAck(c'.io.tap[|c.io.tap|], c.t.seqFromGuest, c.t.guestWscale.Some?)
              && c'.t.sentUnacked == c.t.sentUnacked && c'.t.guestWindow == c.t.guestWindow
              && c'.t.guestMss == c.t.guestMss && c'.t.guestWscale == c.t.guestWscale
            else c'.gone.Some? || c' == c
  {
    if e.TimerTick? { assert e.now >= RTO ==> !TimerDue(c.t, e.now - RTO); }
  }

  /**
    What a guest SYN offers: segments of the size it names, but no smaller than 536 bytes, the window as it stands,
    and a window scale of at most 14 for later ones.
   */
  lemma OpensAsOffered(seqno: u32, window: u16, mss: Option<u16>, wscale: Option<byte>, now: nat)
    ensures var c := Open(seqno, window, mss, wscale, now);
            && Inv(c) && c.gone.None? && c.t.state.Connecting? && c.t.pollArmed && c.t.lastProgress == now
            && (mss.Some? && mss.value >= 536 ==> c.t.guestMss == mss.value)
            && (mss.None? || mss.value < 536 ==> c.t.guestMss == 536)
            && c.t.guestWindow == window && (c.t.guestWscale.Some? <==> wscale.Some?)
            && (wscale.Some? ==> c.t.guestWscale.value == if wscale.value > 14 then 14 else wscale.value)
            && Wrap32(c.t.seqFromGuest - 1) == seqno && c.io.fromHost == c.io.toHost == [] && c.io.tap == []
  {
    var c := Opened(seqno, window, mss, wscale, now);
  }

  /** A SYN on an established flow is answered with the same SYN-ACK again. */
  lemma SynAnswered(c: Conn, tso: bool, e: Event)
    requires Inv(c) && c.gone.None? && c.t.state.Established?
    requires e.FromGuest? && e.header.flags.syn && !e.header.flags.rst
    ensures var c' := Step(c, tso, e);
            && |c'.io.tap| == |c.io.tap| + 1 && c'.io.tap[..|c.io.tap|] == c.io.tap
            && IsSynAck(c'.io.tap[|c.io.tap|], c.t.seqFromGuest, c.t.guestWscale.Some?)
            && c'.t.seqUna == ISN + 1 && c'.t.sentUnacked == 0 && c'.t.queue == c.t.queue && c'.gone.None?
  {
  }

  // ---------------------------------------------------------------------------------------------
  // Whole runs
  // ---------------------------------------------------------------------------------------------

  lemma EofIsRead(c: Conn, tso: bool, e: Event)
    requires Inv(c) && !c.t.hostEof && Step(c, tso, e).t.hostEof
    ensures RecvOf(e).Eof?
  {
    if c.gone.None? { StepReads(c, tso, e); }
  }

  /** The event at position `i` is the one that ended the host's stream, by reading EOF. */
  ghost predicate EndedAt(c: Conn, tso: bool, events: seq<Event>, i: nat)
    requires Inv(c)
  {
    && i < |events| && RecvOf(events[i]).Eof?
    && !Run(c, tso, events[..i]).t.hostEof && Run(c, tso, events[..i + 1]).t.hostEof
  }

  lemma EndedEarlier(c: Conn, tso: bool, events: seq<Event>, n: nat, i: nat)
    requires Inv(c) && n <= |events| && EndedAt(c, tso, events[..n], i)
    ensures EndedAt(c, tso, events, i)
  {
    assert events[..n][..i] == events[..i] && events[..n][..i + 1] == events[..i + 1];
  }

  /** The host's stream ends only if an event of the run read EOF. */
  lemma {:induction false} EofWasRead(c: Conn, tso: bool, events: seq<Event>) returns (i: nat)
    requires Inv(c) && !c.t.hostEof && Run(c, tso, events).t.hostEof
    ensures EndedAt(c, tso, events, i)
    decreases |events|
  {
    var n := |events| - 1;
    if Run(c, tso, events[..n]).t.hostEof {
      i := EofWasRead(c, tso, events[..n]);
      EndedEarlier(c, tso, events, n, i);
    } else {
      i := n;
      assert events[..n + 1] == events;
      EofIsRead(Run(c, tso, events[..n]), tso, events[n]);
    }
  }

  /** A flow that is still there has not been closed by both sides. */
  ghost predicate Prompt(c: Conn) { c.gone.None? ==> !(c.t.hostFin.Acked? && c.t.guestFin) }

  lemma SendAcksNoFin(c: Conn, recv: Recv, tso: bool, now: nat)
    requires c.t.sentUnacked <= |c.t.queue| && c.t.guestMss > 0
    ensures DataToGuest(c, recv, tso, now).t.hostFin.Acked? ==> c.t.hostFin.Acked?
  {
    if MaySend(c.t) {
      FillFrame(c, recv);
      ForwardAcksNoFin(Fill(c, recv).0, c.t.guestWindow - c.t.sentUnacked, Fill(c, recv).1, tso, now);
    }
  }

  lemma ForwardAcksNoFin(c: Conn, budget: nat, drained: bool, tso: bool, now: nat)
    requires c.t.sentUnacked <= |c.t.queue| && c.t.guestMss > 0 && budget > 0
    ensures AfterFill(c, budget, drained, tso, now).t.hostFin.Acked? ==> c.t.hostFin.Acked?
  {
  }

  lemma StepPrompt(c: Conn, tso: bool, e: Event)
    requires Inv(c) && Prompt(c)
    ensures Prompt(Step(c, tso, e))
  {
    if c.gone.None? {
      match e
      case FromGuest(_, _, _, _, _) => if IsSegment(c, e) { SegmentReads(c, tso, e); }
      case SocketReady(_, _, _, _, _) => ReadyReads(c, tso, e);
      case PollFailed =>
      case TimerTick(recv, now) =>
        OthersTakeNothing(c, tso, e);
        SendAcksNoFin(Rewind(FlushAck(c), now), recv, tso, now);
    }
  }

  /** Over every run a flow is removed as soon as the guest has acked our FIN and sent its own. */
  lemma {:induction false} ClosesAtOnce(c: Conn, tso: bool, events: seq<Event>)
    requires Inv(c) && Prompt(c)
    ensures Prompt(Run(c, tso, events))
    decreases |events|
  {
    if events != [] {
      var n := |events| - 1;
      ClosesAtOnce(c, tso, events[..n]);
      StepPrompt(Run(c, tso, events[..n]), tso, events[n]);
    }
  }
}
