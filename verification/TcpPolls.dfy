/** A handler submits at most one poll, and only while none is armed. */
module TcpPolls {
  import opened Words
  import opened TcpModel
  import opened TcpInvariant

  /** One poll was submitted if the flow is armed now and was not before; an armed flow stays armed. */
  ghost predicate Arms(c: Conn, c': Conn) {
    && c'.io.polls == c.io.polls + (if c'.t.pollArmed && !c.t.pollArmed then 1 else 0)
    && (c.t.pollArmed ==> c'.t.pollArmed)
  }

  lemma FillArms(c: Conn, recv: Recv)
    ensures Fill(c, recv).0.io.polls == c.io.polls && Fill(c, recv).0.t.pollArmed == c.t.pollArmed
  {
  }

  lemma AfterFillArms(c: Conn, budget: nat, drained: bool, tso: bool, now: nat)
    requires c.t.sentUnacked <= |c.t.queue| && c.t.guestMss > 0 && budget > 0
    ensures Arms(c, AfterFill(c, budget, drained, tso, now))
  {
  }

  lemma DataToGuestArms(c: Conn, recv: Recv, tso: bool, now: nat)
    requires c.t.sentUnacked <= |c.t.queue| && c.t.guestMss > 0
    ensures Arms(c, DataToGuest(c, recv, tso, now))
  {
    if MaySend(c.t) {
      FillArms(c, recv);
      FillFrame(c, recv);
      AfterFillArms(Fill(c, recv).0, c.t.guestWindow - c.t.sentUnacked, Fill(c, recv).1, tso, now);
    }
  }

  lemma UploadArms(c: Conn, h: Header, payload: seq<byte>, accept: nat)
    ensures var c' := Upload(c, h, payload, accept); c'.io.polls == c.io.polls && c'.t.pollArmed == c.t.pollArmed
  {
  }

  lemma DeliverArms(c: Conn, h: Header, payload: seq<byte>, accept: nat, recv: Recv, tso: bool, now: nat)
    requires c.t.sentUnacked <= |c.t.queue| && c.t.guestMss > 0
    ensures Arms(c, MaybeClose(DataToGuest(Upload(c, h, payload, accept), recv, tso, now)))
  {
    UploadArms(c, h, payload, accept);
    DataToGuestArms(Upload(c, h, payload, accept), recv, tso, now);
  }

  lemma GuestArms(c: Conn, h: Header, payload: seq<byte>, accept: nat, recv: Recv, tso: bool, now: nat)
    requires Inv(c)
    ensures Arms(c, HandleGuest(c, h, payload, accept, recv, tso, now))
  {
    if !h.flags.rst && c.t.state.Established? && !h.flags.syn {
      if h.flags.ack {
        var n := AckFrame(c.t, h, payload == [], now);
        DeliverArms(c.(t := AckFromGuest(c.t, h, payload == [], now)), h, payload, accept, recv, tso, now);
      } else {
        DeliverArms(c, h, payload, accept, recv, tso, now);
      }
    }
  }

  /** A completed poll is no longer armed, so its handler counts from there. */
  lemma ReadyArms(c: Conn, pollErr: bool, pollHup: bool, sockErr: bool, recv: Recv, tso: bool, now: nat)
    requires Inv(c)
    ensures Arms(c.(t := c.t.(pollArmed := false)), HandleReady(c, pollErr, pollHup, sockErr, recv, tso, now))
  {
    DataToGuestArms(c.(t := c.t.(pollArmed := false)), recv, tso, now);
  }

  lemma StaleArms(c: Conn, recv: Recv, tso: bool, now: nat)
    requires c.t.sentUnacked <= |c.t.queue| && c.t.guestMss > 0
    ensures Arms(c, HandleStale(c, recv, tso, now))
  {
    DataToGuestArms(Rewind(c, now), recv, tso, now);
  }

  lemma TimerArms(c: Conn, recv: Recv, tso: bool, now: nat)
    requires Inv(c)
    ensures Arms(c, HandleTimer(c, recv, tso, now))
  {
    StaleArms(FlushAck(c), recv, tso, now);
  }
}
