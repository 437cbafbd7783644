/**
  Recovery from loss.  Wherever a run has got to, whatever the tap has lost: once it delivers again, a
  round of one timeout, the frames it resends and the guest's cumulative ack moves the acknowledged
  position to all that the guest holds, exactly unless the guest has shrunk its window below that; and
  finitely many rounds deliver the whole stream and its FIN.
 */
module Recovery {
  import opened Words
  import opened TcpModel
  import opened TcpInvariant
  import opened TcpLabels
  import opened TcpDelivery
  import opened TcpLiveness
  import opened TcpResends
  import opened EndToEnd

  // ---------------------------------------------------------------------------------------------
  // A tap that delivers
  // ---------------------------------------------------------------------------------------------

  /** What the guest does with each frame of the tap that comes ahead of a gap: keep it or drop it. */
  type Choice = nat -> bool

  /** The tap delivers every frame it holds. */
  function DeliverAll(sys: System, tso: bool, keep: Choice): (done: System)
    requires Inv(sys.c)
    ensures done.c == sys.c
    decreases |sys.c.io.tap| - sys.next
  {
    if sys.next >= |sys.c.io.tap| then sys else DeliverAll(Next(sys, tso, Deliver(keep(sys.next))), tso, keep)
  }

  /** The next frame reaches the guest. */
  lemma DeliverOne(sys: System, tso: bool, keep: Choice) returns (sys': System)
    requires Good(sys) && sys.next < |sys.c.io.tap|
    ensures AsOne(Good(sys')) && sys' == Next(sys, tso, Deliver(keep(sys.next)))
    ensures sys'.c == sys.c && sys'.next == sys.next + 1 && |sys.received| <= |sys'.received|
    ensures DeliverAll(sys, tso, keep) == DeliverAll(sys', tso, keep)
  {
    DeliverGood(sys, tso, keep(sys.next));
    DeliverHolds(sys, tso, keep(sys.next));
    sys' := Next(sys, tso, Deliver(keep(sys.next)));
  }

  /** Delivering is a run of the system. */
  lemma {:induction false} DeliverAllGood(sys: System, tso: bool, keep: Choice)
    requires Good(sys)
    ensures var done := DeliverAll(sys, tso, keep);
            && Good(done) && done.c == sys.c && done.next == |sys.c.io.tap|
            && |sys.received| <= |done.received| && (sys.finSeen ==> done.finSeen)
    decreases |sys.c.io.tap| - sys.next
  {
    if sys.next < |sys.c.io.tap| {
      var sys' := DeliverOne(sys, tso, keep);
      DeliverAllGood(sys', tso, keep);
    }
  }

  /** The first of contiguous frames takes the guest to where the others start. */
  lemma CoversNext(sys: System, tso: bool, keep: Choice, segs: seq<Segment>, at: int)
      returns (sys': System, rest: seq<Segment>, at': int)
    requires Good(sys) && sys.next < |sys.c.io.tap| && segs == sys.c.io.tap[sys.next..]
    requires Contiguous(segs, at) && at <= |sys.received|
    ensures AsOne(Good(sys')) && DeliverAll(sys, tso, keep) == DeliverAll(sys', tso, keep)
    ensures rest == sys'.c.io.tap[sys'.next..] && |rest| < |segs| && Contiguous(rest, at') && at' <= |sys'.received|
    ensures at' + |Joined(rest)| == at + |Joined(segs)|
  {
    sys' := DeliverOne(sys, tso, keep);
    rest, at' := segs[1..], at + |segs[0].payload|;
    assert rest == sys'.c.io.tap[sys'.next..];
    ReachesEnd(sys, tso, keep, segs[0], at, sys');
  }

  /** A frame that starts where the guest is, or earlier, takes it to the frame's end. */
  lemma ReachesEnd(sys: System, tso: bool, keep: Choice, s: Segment, at: int, sys': System)
    requires Good(sys) && sys.next < |sys.c.io.tap| && s == sys.c.io.tap[sys.next] && s.at == at <= |sys.received|
    requires sys' == Next(sys, tso, Deliver(keep(sys.next)))
    ensures at + |s.payload| <= |sys'.received|
  {
    DeliverHolds(sys, tso, keep(sys.next));
  }

  /** The tap has delivered the frames before position `from`. */
  lemma {:induction false} DeliverUpTo(sys: System, tso: bool, keep: Choice, from: nat) returns (sys': System)
    requires Good(sys) && sys.next <= from <= |sys.c.io.tap|
    ensures Good(sys') && sys'.c == sys.c && sys'.next == from && |sys.received| <= |sys'.received|
    ensures DeliverAll(sys, tso, keep) == DeliverAll(sys', tso, keep)
    decreases from - sys.next
  {
    sys' := sys;
    if sys.next < from {
      sys' := DeliverOne(sys, tso, keep);
      sys' := DeliverUpTo(sys', tso, keep, from);
    }
  }

  lemma {:induction false} DeliverRest(
    sys: System, tso: bool, keep: Choice, segs: seq<Segment>, at: int, done: System)
    requires Good(sys) && segs == sys.c.io.tap[sys.next..] && done == DeliverAll(sys, tso, keep)
    requires Contiguous(segs, at) && at <= |sys.received|
    ensures at + |Joined(segs)| <= |done.received|
    decreases |segs|
  {
    if segs != [] {
      var sys', rest, at' := CoversNext(sys, tso, keep, segs, at);
      DeliverRest(sys', tso, keep, rest, at', done);
    }
  }

  /** Contiguous frames from a position the guest has reached bring it to their end. */
  lemma DeliverCovers(sys: System, tso: bool, keep: Choice, from: nat, at: int)
    requires Good(sys) && sys.next <= from <= |sys.c.io.tap|
    requires Contiguous(sys.c.io.tap[from..], at) && at <= |sys.received|
    ensures at + |Joined(sys.c.io.tap[from..])| <= |DeliverAll(sys, tso, keep).received|
  {
    var sys' := DeliverUpTo(sys, tso, keep, from);
    DeliverRest(sys', tso, keep, sys.c.io.tap[from..], at, DeliverAll(sys, tso, keep));
  }

  // ---------------------------------------------------------------------------------------------
  // A tick that resends
  // ---------------------------------------------------------------------------------------------

  /** The frames from position `from` on carry the stream from the acknowledged position to the send position. */
  ghost predicate Resent(c: Conn, from: nat) {
    && from <= |c.io.tap| && c.gone.None? && c.t.hostFin.NotSent? && c.t.state.Established?
    && c.t.sentUnacked == Min(|c.t.queue|, c.t.guestWindow) > 0
    && Contiguous(c.io.tap[from..], AckedBytes(c)) && |Joined(c.io.tap[from..])| == c.t.sentUnacked
  }

  lemma RewindResends(c: Conn, recv: Recv, tso: bool, now: nat)
    requires Inv(c) && c.gone.None? && c.t.state.Established? && c.t.hostFin.NotSent?
    requires c.t.sentUnacked > 0 && c.t.guestWindow > 0 && !recv.Failed?
    ensures var c' := DataToGuest(Rewind(c, now), recv, tso, now);
            && c.io.tap <= c'.io.tap && Resent(c', |c.io.tap|) && AckedBytes(c') == AckedBytes(c)
            && c'.t.guestWindow == c.t.guestWindow && c'.t.lastProgress == now
  {
    var r := Rewind(c, now);
    ReplaceRecord(c, r.t, 0);
    assert r == c.(t := r.t);
    ResendSends(r, recv, tso, now);
    DataToGuestSends(r, recv, tso, now);
    DataToGuestGrows(r, recv, tso, now);
    DataToGuestFrame(r, recv, tso, now);
  }

  /** Data frames from position `from` on end no later than `bound`. */
  ghost predicate EndBy(tap: seq<Segment>, from: nat, bound: int) {
    forall i :: from <= i < |tap| && tap[i].payload != [] ==> tap[i].at + |tap[i].payload| <= bound
  }

  lemma {:induction false} ContiguousEnds(segs: seq<Segment>, at: int)
    requires Contiguous(segs, at)
    ensures EndBy(segs, 0, at + |Joined(segs)|)
    decreases |segs|
  {
    if segs != [] {
      var rest, bound := segs[1..], at + |Joined(segs)|;
      ContiguousEnds(rest, at + |segs[0].payload|);
      forall i | 0 <= i < |segs| && segs[i].payload != [] ensures segs[i].at + |segs[i].payload| <= bound {
        if i > 0 { assert rest[i - 1] == segs[i]; }
      }
    }
  }

  lemma EndBySuffix(tap: seq<Segment>, from: nat, bound: int)
    requires from <= |tap| && EndBy(tap[from..], 0, bound)
    ensures EndBy(tap, from, bound)
  {
    forall i | from <= i < |tap| && tap[i].payload != [] ensures tap[i].at + |tap[i].payload| <= bound {
      assert tap[from..][i - from] == tap[i];
    }
  }

  /** A flow with data in flight, an open window and no progress for a timeout. */
  ghost predicate Stalled(c: Conn, now: nat) {
    && c.gone.None? && c.t.state.Established? && c.t.hostFin.NotSent?
    && c.t.sentUnacked > 0 && c.t.guestWindow > 0 && c.t.lastProgress + RTO < now
  }

  /** What a tick did for it: everything the window takes is on the tap again. */
  ghost predicate Retried(c: Conn, c': Conn, now: nat) {
    && AckedBytes(c') == AckedBytes(c) && c'.t.guestWindow == c.t.guestWindow && c'.t.lastProgress == now
    && EndBy(c'.io.tap, |c.io.tap|, SendOffset(c'))
  }

  lemma TickResends(c: Conn, recv: Recv, tso: bool, now: nat) returns (from: nat)
    requires Inv(c) && Stalled(c, now) && !recv.Failed?
    ensures var c' := HandleTimer(c, recv, tso, now);
            |c.io.tap| <= from && Resent(c', from) && Retried(c, c', now)
  {
    var f := FlushAck(c);
    FlushKeeps(c);
    RewindResends(f, recv, tso, now);
    from := |f.io.tap|;
    var c' := HandleTimer(c, recv, tso, now);
    assert Resent(c', from);
    ContiguousEnds(c'.io.tap[from..], AckedBytes(c'));
    EndBySuffix(c'.io.tap, from, SendOffset(c'));
    FlushEnds(c, c'.io.tap, SendOffset(c'));
  }

  lemma FlushEnds(c: Conn, tap: seq<Segment>, bound: int)
    requires FlushAck(c).io.tap <= tap && EndBy(tap, |FlushAck(c).io.tap|, bound)
    ensures EndBy(tap, |c.io.tap|, bound)
  {
    var f := FlushAck(c).io.tap;
    assert forall i :: |c.io.tap| <= i < |f| ==> tap[i] == f[i] && f[i].payload == [];
  }

  // ---------------------------------------------------------------------------------------------
  // An ack that counts
  // ---------------------------------------------------------------------------------------------

  /** The guest's cumulative ack: it names all that the guest holds. */
  predicate Cumulative(sys: System, h: Header) { Position(h.ackno, |sys.received|) }

  /** It is an honest one. */
  lemma CumulativeHonest(sys: System, e: Event)
    requires IsAck(sys.c, e) && Cumulative(sys, e.header)
    ensures Honest(sys, Handle(e))
  {
    assert Position(e.header.ackno, |sys.received|);
  }

  /** Distinct positions within reach of the oldest unacked byte have distinct ack numbers. */
  lemma NamesOne(c: Conn, ackno: u32, k: nat, j: nat)
    requires AckedBytes(c) >= 0 && Lag(c) == 0 && k < TWO32 && j < TWO32 && Position(ackno, AckedBytes(c) + k)
    ensures Names(ackno, c.t.seqUna, j) <==> j == k
  {
    SeqOfLag(c, j);
    WrapInjective(ISN + 1 + AckedBytes(c) + k, ISN + 1 + AckedBytes(c) + j);
  }

  /** An ack of position `k` past the oldest unacked byte releases `k` bytes, unless fewer are in flight. */
  lemma AckAt(c: Conn, h: Header, k: nat, payloadEmpty: bool, now: nat)
    requires Inv(c) && Lag(c) == 0 && k <= |c.t.queue| && Position(h.ackno, AckedBytes(c) + k)
    ensures AckedBytes(c.(t := AckFromGuest(c.t, h, payloadEmpty, now)))
            == AckedBytes(c) + if k <= c.t.sentUnacked then k else 0
  {
    AckReleases(c, h, payloadEmpty, now);
    NamesOne(c, h.ackno, k, k);
    forall j | 0 < j <= c.t.sentUnacked && j != k ensures !Names(h.ackno, c.t.seqUna, j) {
      NamesOne(c, h.ackno, k, j);
    }
  }

  /** A cumulative ack counts in full or not at all: not at all when the guest holds more than is in flight. */
  lemma CumulativeAck(sys: System, tso: bool, e: Event)
    requires Good(sys) && IsAck(sys.c, e) && sys.c.t.hostFin.NotSent? && Cumulative(sys, e.header)
    ensures AckedBytes(Step(sys.c, tso, e))
            == if |sys.received| <= SendOffset(sys.c) then |sys.received| else AckedBytes(sys.c)
  {
    AckAt(sys.c, e.header, |sys.received| - AckedBytes(sys.c), e.payload == [], e.now);
    AckGrows(sys.c, e.header, e.payload, e.accept, e.recv, tso, e.now);
  }

  // ---------------------------------------------------------------------------------------------
  // One round
  // ---------------------------------------------------------------------------------------------

  /** After a tick, the guest has what was in flight once the tap delivers. */
  function AfterTick(sys: System, tso: bool, keep: Choice, recv: Recv, now: nat): (done: System)
    requires Inv(sys.c)
    ensures Inv(done.c)
  {
    StepKeeps(sys.c, tso, TimerTick(recv, now));
    DeliverAll(Next(sys, tso, Handle(TimerTick(recv, now))), tso, keep)
  }

  lemma TickDelivers(sys: System, tso: bool, keep: Choice, recv: Recv, now: nat)
    requires Good(sys) && Stalled(sys.c, now) && !recv.Failed?
    ensures var done := AfterTick(sys, tso, keep, recv, now);
            && Good(done) && done.next == |done.c.io.tap| && Retried(sys.c, done.c, now)
            && done.c.gone.None? && done.c.t.hostFin.NotSent? && done.c.t.state.Established?
            && done.c.t.sentUnacked == Min(|done.c.t.queue|, done.c.t.guestWindow) > 0
            && SendOffset(done.c) <= |done.received|
  {
    var tick := TimerTick(recv, now);
    HandleGood(sys, tso, tick);
    var from := TickResends(sys.c, recv, tso, now);
    var sys1 := Next(sys, tso, Handle(tick));
    DeliverAllGood(sys1, tso, keep);
    DeliverCovers(sys1, tso, keep, from, AckedBytes(sys1.c));
  }

  /** The guest holds no more than its window covers from the acknowledged position on. */
  predicate WindowCovers(sys: System) { |sys.received| - AckedBytes(sys.c) <= sys.c.t.guestWindow }

  /**
    Recovery.  A stalled flow, whatever was lost: the next stale tick resends, the tap delivers, and the
    guest acks what it then has, honestly.  That ack moves the acknowledged position to all that the
    guest holds if the guest's window covers it; if the guest has shrunk its window below that, the ack
    is ahead of what is in flight and is ignored.
   */
  lemma OneRoundRecovers(sys: System, tso: bool, keep: Choice, recv: Recv, now: nat, ack: Event)
    requires Good(sys) && Stalled(sys.c, now) && !recv.Failed?
    ensures var done := AfterTick(sys, tso, keep, recv, now);
            && done.c.gone.None? && done.c.t.state.Established? && AckedBytes(sys.c) < |done.received|
            && (IsAck(done.c, ack) && Cumulative(done, ack.header) ==>
                  && Honest(done, Handle(ack))
                  && (AckedBytes(Step(done.c, tso, ack)) > AckedBytes(sys.c) <==> WindowCovers(done))
                  && (WindowCovers(done) ==> AckedBytes(Step(done.c, tso, ack)) == |done.received|))
  {
    TickDelivers(sys, tso, keep, recv, now);
    var done := AfterTick(sys, tso, keep, recv, now);
    if IsAck(done.c, ack) && Cumulative(done, ack.header) {
      CumulativeHonest(done, ack);
      CumulativeAck(done, tso, ack);
    }
  }

  // ---------------------------------------------------------------------------------------------
  // The FIN
  // ---------------------------------------------------------------------------------------------

  /** A FIN among the undelivered frames is seen, for the guest has everything before it. */
  lemma {:induction false} FinDelivered(sys: System, tso: bool, keep: Choice, i: nat)
    requires Good(sys) && !sys.c.t.hostFin.NotSent?
    requires sys.next <= i < |sys.c.io.tap| && sys.c.io.tap[i].flags.fin
    ensures DeliverAll(sys, tso, keep).finSeen
    decreases i - sys.next
  {
    DeliverGood(sys, tso, keep(sys.next));
    if sys.next < i {
      FinDelivered(Next(sys, tso, Deliver(keep(sys.next))), tso, keep, i);
    } else {
      var s := sys.c.io.tap[i];
      assert s in sys.c.io.tap && Authentic(s, sys.c.io.fromHost, sys.c.t.hostEof);
      DeliverAllGood(Next(sys, tso, Deliver(keep(sys.next))), tso, keep);
    }
  }

  /** A FIN that was not acked for a timeout. */
  ghost predicate FinStalled(c: Conn, now: nat) {
    c.gone.None? && c.t.hostFin.Sent? && c.t.lastProgress + RTO < now
  }

  lemma TickResendsFin(c: Conn, recv: Recv, tso: bool, now: nat)
    requires Inv(c) && FinStalled(c, now)
    ensures var c' := HandleTimer(c, recv, tso, now);
            && c'.gone.None? && c'.t.state.Established? && c'.t.hostFin.Sent?
            && |c'.io.tap| > |c.io.tap| && c'.io.tap[|c'.io.tap| - 1].flags.fin
  {
  }

  lemma TickDeliversFin(sys: System, tso: bool, keep: Choice, recv: Recv, now: nat)
    requires Good(sys) && FinStalled(sys.c, now)
    ensures var done := AfterTick(sys, tso, keep, recv, now);
            && Good(done) && done.finSeen && done.c == Step(sys.c, tso, TimerTick(recv, now))
            && done.c.gone.None? && done.c.t.state.Established? && done.c.t.hostFin.Sent?
  {
    var tick := TimerTick(recv, now);
    HandleGood(sys, tso, tick);
    TickResendsFin(sys.c, recv, tso, now);
    var sys1 := Next(sys, tso, Handle(tick));
    DeliverAllGood(sys1, tso, keep);
    FinDelivered(sys1, tso, keep, |sys1.c.io.tap| - 1);
  }

  lemma FinAckCounts(c: Conn, tso: bool, e: Event)
    requires Inv(c) && InSync(c) && IsAck(c, e) && c.t.hostFin.Sent?
    requires Position(e.header.ackno, |c.io.fromHost| + 1)
    ensures Step(c, tso, e).t.hostFin.Acked?
  {
    SeqOfLag(c, 1);
    AckReleases(c, e.header, e.payload == [], e.now);
    var acked := c.(t := AckFromGuest(c.t, e.header, e.payload == [], e.now));
    AckKeeps(c, e.header, e.payload == [], e.now);
    AckKeepsState(c.t, e.header, e.payload == [], e.now);
    DeliverConsistent(acked, e.header, e.payload, e.accept, e.recv, tso, e.now);
  }

  /** The same for the FIN: one round after it stalled, it is acked. */
  lemma OneRoundRecoversFin(sys: System, tso: bool, keep: Choice, recv: Recv, now: nat, ack: Event)
    requires Good(sys) && FinStalled(sys.c, now)
    ensures var done := AfterTick(sys, tso, keep, recv, now);
            && done.c.gone.None? && done.c.t.state.Established?
            && (IsAck(done.c, ack) && Position(ack.header.ackno, |done.received| + 1) ==>
                  Honest(done, Handle(ack)) && Step(done.c, tso, ack).t.hostFin.Acked?)
  {
    TickDeliversFin(sys, tso, keep, recv, now);
    var done := AfterTick(sys, tso, keep, recv, now);
    if IsAck(done.c, ack) && Position(ack.header.ackno, |done.received| + 1) { FinAckCounts(done.c, tso, ack); }
  }
}
