/**
  Sequence numbers against stream offsets: every data segment and FIN is labelled with the offset of
  its bytes, up to a lag that only a SYN on an established flow can introduce.
 */
module TcpLabels {
  import opened Words
  import opened TcpModel
  import opened TcpInvariant

  /** How far `seqUna` is behind the acknowledged host bytes, modulo 2^32; zero when in sync. */
  function Lag(c: Conn): u32 { Wrap32(ISN + 1 + AckedBytes(c) - c.t.seqUna) }

  /** Data segments and FINs from position `from` on are labelled with their stream offset minus `lag`. */
  ghost predicate Labels(tap: seq<Segment>, from: nat, lag: int) {
    forall i :: from <= i < |tap| && (tap[i].payload != [] || tap[i].flags.fin) ==>
      tap[i].seqno == Wrap32(ISN + 1 + tap[i].at - lag)
  }

  /** Neither data nor FIN from position `from` on. */
  ghost predicate Bare(tap: seq<Segment>, from: nat) {
    forall i :: from <= i < |tap| ==> tap[i].payload == [] && !tap[i].flags.fin
  }

  /** No data below offset `acked` from position `from` on. */
  ghost predicate Beyond(tap: seq<Segment>, from: nat, acked: int) {
    forall i :: from <= i < |tap| && tap[i].payload != [] ==> acked <= tap[i].at
  }

  /**
    From `c` to `c'` the tap only grew, by segments labelled with the lag of `c` and carrying nothing
    that was already acked, and the lag stayed.  Once the guest acked our FIN, neither data nor FIN
    follows.
   */
  ghost predicate Consistent(c: Conn, c': Conn) {
    && c'.t.state == c.t.state
    && c.io.tap <= c'.io.tap
    && Labels(c'.io.tap, |c.io.tap|, Lag(c))
    && AckedBytes(c) <= AckedBytes(c') && Beyond(c'.io.tap, |c.io.tap|, AckedBytes(c))
    && (!c'.t.hostFin.Acked? ==> Lag(c') == Lag(c))
    && (c.t.hostFin.Acked? ==> c'.t.hostFin.Acked? && Bare(c'.io.tap, |c.io.tap|))
  }

  /** `seqUna` in terms of the lag. */
  lemma SeqOfLag(c: Conn, n: int)
    ensures Wrap32(c.t.seqUna + n) == Wrap32(ISN + 1 + AckedBytes(c) + n - Lag(c))
  {
  }

  lemma ConsistentTrans(a: Conn, b: Conn, c: Conn)
    requires Consistent(a, b) && Consistent(b, c)
    ensures Consistent(a, c)
  {
    forall i | |a.io.tap| <= i < |c.io.tap| && (c.io.tap[i].payload != [] || c.io.tap[i].flags.fin)
      ensures c.io.tap[i].seqno == Wrap32(ISN + 1 + c.io.tap[i].at - Lag(a))
      ensures c.io.tap[i].payload != [] ==> AckedBytes(a) <= c.io.tap[i].at
    {
      if i < |b.io.tap| { assert b.io.tap[i] == c.io.tap[i]; }
    }
  }

  /** A state change that leaves the tap, the FIN state and all positions alone. */
  lemma SameLag(c: Conn, c': Conn)
    requires c'.io.tap == c.io.tap && c'.t.hostFin == c.t.hostFin && c'.t.state == c.t.state
    requires c'.t.seqUna == c.t.seqUna && AckedBytes(c') == AckedBytes(c)
    ensures Consistent(c, c')
  {
  }

  lemma ControlConsistent(c: Conn, flags: Flags)
    requires flags.fin ==> !c.t.hostFin.Acked?
    ensures Consistent(c, SendControl(c, flags))
  {
    SeqOfLag(c, c.t.sentUnacked);
  }

  /** Dropping `n` queued bytes and moving `seqUna` by `n` keeps the lag. */
  lemma DropConsistent(c: Conn, t: Tcp, n: nat)
    requires n <= |c.t.queue| && t.queue == c.t.queue[n..] && t.state == c.t.state
    requires t.hostFin.Acked? || (t.hostFin == c.t.hostFin && t.seqUna == Wrap32(c.t.seqUna + n))
    ensures Consistent(c, c.(t := t))
  {
  }

  lemma AckConsistent(c: Conn, h: Header, payloadEmpty: bool, now: nat)
    requires Inv(c)
    ensures Consistent(c, c.(t := AckFromGuest(c.t, h, payloadEmpty, now)))
  {
    var n := AckFrame(c.t, h, payloadEmpty, now);
    DropConsistent(c, AckFromGuest(c.t, h, payloadEmpty, now), n);
  }

  lemma FillConsistent(c: Conn, recv: Recv)
    ensures Consistent(c, Fill(c, recv).0)
  {
    ControlConsistent(c, RST_ACK);
  }

  lemma CutLabels(data: seq<byte>, how: Framing, at: int, lag: int)
    requires how.chunk > 0 && Wrap32(how.base) == Wrap32(ISN + 1 - lag)
    ensures Labels(Cut(data, how, at), 0, lag)
    ensures Beyond(Cut(data, how, at), 0, at)
  {
    var segs := Cut(data, how, at);
    CutSlices(data, how, at);
    forall i | 0 <= i < |segs| ensures segs[i].seqno == Wrap32(ISN + 1 + segs[i].at - lag) && at <= segs[i].at {
      assert Slice(segs[i], data, how, at);
      WrapAdd(how.base, segs[i].at);
      WrapAdd(ISN + 1 - lag, segs[i].at);
    }
  }

  lemma NewSegmentsLabels(c: Conn, budget: nat, tso: bool)
    requires Inv(c) && c.t.sentUnacked < |c.t.queue| && budget > 0
    ensures Labels(NewSegments(c, budget, tso), 0, Lag(c)) && Beyond(NewSegments(c, budget, tso), 0, SendOffset(c))
  {
    var sent, len := c.t.sentUnacked, SendLen(c.t, budget);
    SeqOfLag(c, -AckedBytes(c));
    CutLabels(c.t.queue[sent..sent + len], FramingOf(c, len, tso), SendOffset(c), Lag(c));
  }

  lemma SendNewConsistent(c: Conn, budget: nat, drained: bool, tso: bool, now: nat)
    requires Inv(c) && c.t.sentUnacked < |c.t.queue| && budget > 0
    ensures Consistent(c, SendNew(c, budget, drained, tso, now))
  {
    var segs := NewSegments(c, budget, tso);
    NewSegmentsLabels(c, budget, tso);
    assert forall i :: 0 <= i < |segs| ==> (c.io.tap + segs)[|c.io.tap| + i] == segs[i];
  }

  lemma SendNothingConsistent(c: Conn, drained: bool, now: nat)
    requires !c.t.hostFin.Acked?
    ensures Consistent(c, SendNothing(c, drained, now))
  {
    ControlConsistent(c, FIN_ACK);
  }

  lemma ForwardConsistent(c: Conn, budget: nat, drained: bool, tso: bool, now: nat)
    requires Inv(c) && c.t.hostFin.NotSent? && budget > 0
    ensures Consistent(c, Forward(c, budget, drained, tso, now))
  {
    if |c.t.queue| == c.t.sentUnacked {
      SendNothingConsistent(c, drained, now);
    } else {
      SendNewConsistent(c, budget, drained, tso, now);
    }
  }

  lemma AfterFillConsistent(c: Conn, budget: nat, drained: bool, tso: bool, now: nat)
    requires Inv(c) && c.t.hostFin.NotSent? && budget > 0
    ensures Consistent(c, AfterFill(c, budget, drained, tso, now))
  {
    if c.gone.None? {
      ForwardConsistent(c, budget, drained, tso, now);
    } else {
      SameLag(c, c);
    }
  }

  lemma DataToGuestConsistent(c: Conn, recv: Recv, tso: bool, now: nat)
    requires Inv(c)
    ensures Consistent(c, DataToGuest(c, recv, tso, now))
  {
    if MaySend(c.t) {
      FillConsistent(c, recv);
      FillKeeps(c, recv);
      FillFrame(c, recv);
      var c', budget := Fill(c, recv).0, c.t.guestWindow - c.t.sentUnacked;
      AfterFillConsistent(c', budget, Fill(c, recv).1, tso, now);
      ConsistentTrans(c, c', AfterFill(c', budget, Fill(c, recv).1, tso, now));
    } else {
      SameLag(c, c);
    }
  }

  lemma UploadConsistent(c: Conn, h: Header, payload: seq<byte>, accept: nat)
    ensures Consistent(c, Upload(c, h, payload, accept))
  {
    var n := Accepted(c, h, payload, accept);
    var fin := h.flags.fin && n == |payload|;
    var defer := payload != [] && MayDefer(c, h, payload, n);
    var c1 := TakePayload(c, payload, n);
    var c2 := if defer then c1.(t := c1.t.(ackDeferred := true)) else c1;
    var c3 := if fin then TakeFin(c2, h, payload) else c2;
    SameLag(c, c3);
    if fin || (payload != [] && !defer) {
      var c4 := c3.(t := c3.t.(ackDeferred := false));
      SameLag(c, c4);
      ControlConsistent(c4, ACK);
      ConsistentTrans(c, c4, SendControl(c4, ACK));
    }
  }

  lemma DeliverConsistent(c: Conn, h: Header, payload: seq<byte>, accept: nat, recv: Recv, tso: bool, now: nat)
    requires Inv(c) && c.t.state.Established?
    ensures Consistent(c, MaybeClose(DataToGuest(Upload(c, h, payload, accept), recv, tso, now)))
  {
    var c1 := Upload(c, h, payload, accept);
    UploadKeeps(c, h, payload, accept);
    UploadConsistent(c, h, payload, accept);
    RefillConsistent(c1, recv, tso, now);
    ConsistentTrans(c, c1, MaybeClose(DataToGuest(c1, recv, tso, now)));
  }

  lemma RefillConsistent(c: Conn, recv: Recv, tso: bool, now: nat)
    requires Inv(c)
    ensures Consistent(c, MaybeClose(DataToGuest(c, recv, tso, now)))
  {
    DataToGuestConsistent(c, recv, tso, now);
    var c' := DataToGuest(c, recv, tso, now);
    SameLag(c', MaybeClose(c'));
    ConsistentTrans(c, c', MaybeClose(c'));
  }

  /** A SYN that an established flow answers with a new SYN-ACK. */
  predicate IsSyn(c: Conn, e: Event) {
    c.gone.None? && c.t.state.Established? && e.FromGuest? && e.header.flags.syn && !e.header.flags.rst
  }

  lemma GuestConsistent(c: Conn, h: Header, payload: seq<byte>, accept: nat, recv: Recv, tso: bool, now: nat)
    requires Inv(c) && c.t.state.Established? && (h.flags.rst || !h.flags.syn)
    ensures Consistent(c, HandleGuest(c, h, payload, accept, recv, tso, now))
  {
    if h.flags.rst {
      SameLag(c, Remove(c, ByGuest));
    } else if h.flags.ack {
      var c1 := c.(t := AckFromGuest(c.t, h, payload == [], now));
      AckConsistent(c, h, payload == [], now);
      AckKeeps(c, h, payload == [], now);
      AckKeepsState(c.t, h, payload == [], now);
      DeliverConsistent(c1, h, payload, accept, recv, tso, now);
      ConsistentTrans(c, c1, MaybeClose(DataToGuest(Upload(c1, h, payload, accept), recv, tso, now)));
    } else {
      DeliverConsistent(c, h, payload, accept, recv, tso, now);
    }
  }

  lemma ResetConsistent(c: Conn)
    ensures Consistent(c, Reset(c))
  {
    ControlConsistent(c, RST_ACK);
    SameLag(SendControl(c, RST_ACK), Reset(c));
    ConsistentTrans(c, SendControl(c, RST_ACK), Reset(c));
  }

  lemma ReadyConsistent(c: Conn, pollErr: bool, pollHup: bool, sockErr: bool, recv: Recv, tso: bool, now: nat)
    requires Inv(c) && c.t.state.Established?
    ensures Consistent(c, HandleReady(c, pollErr, pollHup, sockErr, recv, tso, now))
  {
    var c1 := c.(t := c.t.(pollArmed := false));
    SameLag(c, c1);
    ResetConsistent(c1);
    RefillConsistent(c1, recv, tso, now);
    ConsistentTrans(c, c1, HandleReady(c, pollErr, pollHup, sockErr, recv, tso, now));
  }

  lemma FlushConsistent(c: Conn)
    ensures Consistent(c, FlushAck(c))
  {
    if c.t.ackDeferred {
      var c1 := c.(t := c.t.(ackDeferred := false));
      SameLag(c, c1);
      ControlConsistent(c1, ACK);
      ConsistentTrans(c, c1, FlushAck(c));
    }
  }

  lemma RewindConsistent(c: Conn, recv: Recv, tso: bool, now: nat)
    requires Inv(c)
    ensures Consistent(c, DataToGuest(Rewind(c, now), recv, tso, now))
  {
    SameLag(c, Rewind(c, now));
    DataToGuestConsistent(Rewind(c, now), recv, tso, now);
    ConsistentTrans(c, Rewind(c, now), DataToGuest(Rewind(c, now), recv, tso, now));
  }

  lemma StaleConsistent(c: Conn, recv: Recv, tso: bool, now: nat)
    requires Inv(c)
    ensures Consistent(c, HandleStale(c, recv, tso, now))
  {
    var c1 := c.(t := c.t.(lastProgress := now));
    SameLag(c, c1);
    if c.t.sentUnacked > 0 {
      RewindConsistent(c, recv, tso, now);
    } else if c.t.hostFin.Sent? {
      ControlConsistent(c1, FIN_ACK);
      ConsistentTrans(c, c1, SendControl(c1, FIN_ACK));
    }
  }

  lemma TimerConsistent(c: Conn, recv: Recv, tso: bool, now: nat)
    requires Inv(c)
    ensures Consistent(c, HandleTimer(c, recv, tso, now))
  {
    FlushConsistent(c);
    FlushKeeps(c);
    StaleConsistent(FlushAck(c), recv, tso, now);
    ConsistentTrans(c, FlushAck(c), HandleStale(FlushAck(c), recv, tso, now));
  }

  /**
    Every event of an established flow, except a SYN, emits data and FINs labelled with the current
    lag and keeps that lag.
   */
  lemma StepConsistent(c: Conn, tso: bool, e: Event)
    requires Inv(c) && c.t.state.Established? && !IsSyn(c, e)
    ensures Consistent(c, Step(c, tso, e))
  {
    if c.gone.None? {
      match e
      case FromGuest(h, payload, accept, recv, now) => GuestConsistent(c, h, payload, accept, recv, tso, now);
      case SocketReady(pollErr, pollHup, sockErr, recv, now) =>
        ReadyConsistent(c, pollErr, pollHup, sockErr, recv, tso, now);
      case PollFailed => ResetConsistent(c);
      case TimerTick(recv, now) => TimerConsistent(c, recv, tso, now);
    }
  }
}
