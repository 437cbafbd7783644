/**
  A flow together with its guest.  The tap delivers frames in order and may lose any of them; the
  guest reassembles by 32-bit sequence numbers alone, keeps or drops what comes ahead of a gap, and acks
  what it has.  Whatever is lost, the bytes up to the first gap are a prefix of the host's stream, and
  all of it before the FIN goes out.
 */
module EndToEnd {
  import opened Words
  import opened Buffers
  import opened TcpModel
  import opened TcpInvariant
  import opened TcpLabels
  import opened TcpDelivery

  /**
    `received` is what the guest reassembled, `ahead` what it keeps of the bytes behind a gap, by position,
    and `next` the first frame of the tap it has not seen.
   */
  datatype System = System(c: Conn, received: seq<byte>, ahead: map<nat, byte>, finSeen: bool, next: nat)

  /** The guest keeps a frame that comes ahead of a gap, or drops it. */
  datatype Move = Handle(e: Event) | Deliver(keep: bool) | Lose

  /** A filled gap makes the bytes behind it part of what is reassembled. */
  function Drain(received: seq<byte>, ahead: map<nat, byte>): seq<byte>
    decreases |ahead|
  {
    var at := |received|;
    if at in ahead then Drain(received + [ahead[at]], ahead - {at}) else received
  }

  /** A frame that starts within what the guest has, or right behind it, adds the bytes that are new. */
  function Receive(received: seq<byte>, ahead: map<nat, byte>, s: Segment): seq<byte> {
    var have := Wrap32(ISN + 1 + |received| - s.seqno);
    if have < |s.payload| then Drain(received + s.payload[have..], ahead) else received
  }

  function Placed(payload: seq<byte>, at: nat): (m: map<nat, byte>)
    ensures forall k :: k in m <==> at <= k < at + |payload|
    ensures forall k :: k in m ==> m[k] == payload[k - at]
  {
    if payload == [] then map[] else Placed(payload[1..], at + 1)[at := payload[0]]
  }

  /** A frame that starts behind a gap waits until the gap is filled. */
  function Kept(received: seq<byte>, ahead: map<nat, byte>, s: Segment, keep: bool): map<nat, byte> {
    var gap := Wrap32(s.seqno - (ISN + 1 + |received|));
    if keep && 0 < gap < TWO32 / 2 then ahead + Placed(s.payload, |received| + gap) else ahead
  }

  function Next(sys: System, tso: bool, m: Move): System
    requires Inv(sys.c)
  {
    match m
    case Handle(e) => sys.(c := Step(sys.c, tso, e))
    case Deliver(keep) =>
      if sys.next >= |sys.c.io.tap| then sys
      else
        var s := sys.c.io.tap[sys.next];
        System(sys.c, Receive(sys.received, sys.ahead, s), Kept(sys.received, sys.ahead, s, keep),
               sys.finSeen || (s.flags.fin && s.seqno == Wrap32(ISN + 1 + |sys.received|)), sys.next + 1)
    case Lose => if sys.next >= |sys.c.io.tap| then sys else sys.(next := sys.next + 1)
  }

  /** The guest acks a position it reached less than half a sequence space ago, or the FIN it saw. */
  ghost predicate AcksHonestly(sys: System, h: Header) {
    || (exists r: nat :: Position(h.ackno, r) && r <= |sys.received| < r + TWO32 / 2)
    || (sys.finSeen && Position(h.ackno, |sys.received| + 1))
  }

  predicate Position(ackno: u32, r: nat) { ackno == Wrap32(ISN + 1 + r) }

  ghost predicate Honest(sys: System, m: Move) {
    m.Handle? && m.e.FromGuest? && m.e.header.flags.ack && !m.e.header.flags.syn && !m.e.header.flags.rst ==>
      AcksHonestly(sys, m.e.header)
  }

  /** How far apart stream offsets of frames on the tap can be from one another and from the guest. */
  const SPREAD: nat := 2 * FRAME

  /** Everything the guest holds lies below `bound`. */
  ghost predicate Reaches(received: seq<byte>, ahead: map<nat, byte>, bound: int) {
    |received| <= bound && forall k :: k in ahead ==> k < bound
  }

  /** Frames not yet delivered are close enough to what the guest has for sequence numbers to be unambiguous. */
  ghost predicate Near(tap: seq<Segment>, next: nat, received: seq<byte>, ahead: map<nat, byte>) {
    forall i :: next <= i < |tap| && tap[i].payload != [] ==> Reaches(received, ahead, tap[i].at + SPREAD)
  }

  ghost predicate Spread(tap: seq<Segment>, next: nat) {
    forall i, j :: next <= i < j < |tap| && tap[i].payload != [] && tap[j].payload != [] ==>
      tap[i].at + |tap[i].payload| <= tap[j].at + SPREAD
  }

  /** Everything the guest holds is the host's byte at that position. */
  ghost predicate Holds(received: seq<byte>, ahead: map<nat, byte>, stream: seq<byte>) {
    received <= stream && forall k :: k in ahead ==> k < |stream| && ahead[k] == stream[k]
  }

  ghost predicate Good(sys: System) {
    && Inv(sys.c) && InSync(sys.c)
    && Holds(sys.received, sys.ahead, sys.c.io.fromHost)
    && AckedBytes(sys.c) <= |sys.received|
    && (sys.finSeen ==> sys.c.t.hostEof && !sys.c.t.hostFin.NotSent? && |sys.received| == |sys.c.io.fromHost|)
    && sys.next <= |sys.c.io.tap|
    && Near(sys.c.io.tap, sys.next, sys.received, sys.ahead)
    && Spread(sys.c.io.tap, sys.next)
  }

  // ---------------------------------------------------------------------------------------------
  // Delivery
  // ---------------------------------------------------------------------------------------------

  lemma {:induction false} DrainExtends(received: seq<byte>, ahead: map<nat, byte>, stream: seq<byte>, bound: int)
    requires Holds(received, ahead, stream) && Reaches(received, ahead, bound)
    ensures received <= Drain(received, ahead) <= stream && |Drain(received, ahead)| <= bound
    decreases |ahead|
  {
    var at := |received|;
    if at in ahead {
      assert received + [ahead[at]] <= stream;
      DrainExtends(received + [ahead[at]], ahead - {at}, stream, bound);
    }
  }

  /** A faithful frame near the guest's position. */
  ghost predicate Arrives(received: seq<byte>, s: Segment, stream: seq<byte>) {
    Faithful(s, stream) && Fits(s) && |received| <= s.at + SPREAD && s.at <= |received| + SPREAD
  }

  /** Whatever the guest does with it, it holds nothing but the host's bytes, and nothing beyond the frame's end. */
  lemma ReceiveExtends(
    received: seq<byte>, ahead: map<nat, byte>, s: Segment, keep: bool, stream: seq<byte>, bound: int)
    requires Holds(received, ahead, stream) && Arrives(received, s, stream)
    requires Reaches(received, ahead, bound) && s.at + |s.payload| <= bound
    ensures var received', ahead' := Receive(received, ahead, s), Kept(received, ahead, s, keep);
            && Holds(received', ahead', stream) && received <= received' && Reaches(received', ahead', bound)
            && (s.at <= |received| ==> s.at + |s.payload| <= |received'|)
  {
    TakeExtends(received, ahead, s, stream, bound);
    KeepExtends(received, ahead, s, keep, stream, bound);
  }

  lemma TakeExtends(received: seq<byte>, ahead: map<nat, byte>, s: Segment, stream: seq<byte>, bound: int)
    requires Holds(received, ahead, stream) && Arrives(received, s, stream)
    requires Reaches(received, ahead, bound) && s.at + |s.payload| <= bound
    ensures var received' := Receive(received, ahead, s);
            && received <= received' <= stream && |received'| <= bound
            && (s.at <= |received| ==> s.at + |s.payload| <= |received'|)
  {
    var have := Wrap32(ISN + 1 + |received| - s.seqno);
    OffsetOfLabel(|received|, s.at, s.seqno);
    if have < |s.payload| {
      assert s.payload[have..] == stream[|received|..s.at + |s.payload|];
      DrainExtends(received + s.payload[have..], ahead, stream, bound);
    }
  }

  lemma KeepExtends(
    received: seq<byte>, ahead: map<nat, byte>, s: Segment, keep: bool, stream: seq<byte>, bound: int)
    requires Holds(received, ahead, stream) && Arrives(received, s, stream)
    requires Reaches(received, ahead, bound) && s.at + |s.payload| <= bound
    ensures Holds(received, Kept(received, ahead, s, keep), stream)
    ensures Reaches(received, Kept(received, ahead, s, keep), bound)
  {
    GapOfLabel(|received|, s.at, s.seqno);
  }

  /** The guest sees a gap exactly where there is one. */
  lemma GapOfLabel(have: nat, at: int, seqno: u32)
    requires have <= at + SPREAD && at <= have + SPREAD && seqno == Wrap32(ISN + 1 + at)
    ensures Wrap32(seqno - (ISN + 1 + have)) == if at >= have then at - have else TWO32 + at - have
  {
    WrapAdd(ISN + 1 + at, -(ISN + 1 + have));
    WrapSmall(at - have);
  }

  lemma WrapSmall(d: int)
    requires -TWO32 < d < TWO32
    ensures Wrap32(d) == if d >= 0 then d else TWO32 + d
  {
  }

  /** For nearby offsets the 32-bit difference is the true one, or far too large for a frame. */
  lemma OffsetOfLabel(have: nat, at: int, seqno: u32)
    requires have <= at + SPREAD && at <= have + SPREAD && seqno == Wrap32(ISN + 1 + at)
    ensures Wrap32(ISN + 1 + have - seqno) == if have >= at then have - at else TWO32 + have - at
  {
    WrapAdd(ISN + 1 + at, ISN + 1 + have);
  }

  lemma NearDrop(sys: System)
    requires Good(sys) && sys.next < |sys.c.io.tap|
    ensures Near(sys.c.io.tap, sys.next + 1, sys.received, sys.ahead) && Spread(sys.c.io.tap, sys.next + 1)
  {
  }

  /** The frame at hand arrives near what the guest has. */
  lemma NextArrives(sys: System)
    requires Good(sys) && sys.next < |sys.c.io.tap| && sys.c.io.tap[sys.next].payload != []
    ensures Arrives(sys.received, sys.c.io.tap[sys.next], sys.c.io.fromHost)
  {
    var s := sys.c.io.tap[sys.next];
    assert s in sys.c.io.tap && Authentic(s, sys.c.io.fromHost, sys.c.t.hostEof) && Fits(s);
    assert Reaches(sys.received, sys.ahead, s.at + SPREAD);
  }

  /** What a delivery does to the guest, with any bound on what it holds and what arrives. */
  lemma DeliverEffect(sys: System, tso: bool, keep: bool, bound: int)
    requires Good(sys) && sys.next < |sys.c.io.tap| && Reaches(sys.received, sys.ahead, bound)
    requires var s := sys.c.io.tap[sys.next]; s.payload != [] ==> s.at + |s.payload| <= bound
    ensures var s, sys' := sys.c.io.tap[sys.next], Next(sys, tso, Deliver(keep));
            && Holds(sys'.received, sys'.ahead, sys.c.io.fromHost) && Reaches(sys'.received, sys'.ahead, bound)
            && sys.received <= sys'.received
            && (s.payload != [] && s.at <= |sys.received| ==> s.at + |s.payload| <= |sys'.received|)
  {
    var s := sys.c.io.tap[sys.next];
    if s.payload != [] {
      NextArrives(sys);
      ReceiveExtends(sys.received, sys.ahead, s, keep, sys.c.io.fromHost, bound);
    } else {
      assert Placed(s.payload, |sys.received| + Wrap32(s.seqno - (ISN + 1 + |sys.received|))) == map[];
    }
  }

  lemma DeliverHolds(sys: System, tso: bool, keep: bool)
    requires Good(sys) && sys.next < |sys.c.io.tap|
    ensures var s, sys' := sys.c.io.tap[sys.next], Next(sys, tso, Deliver(keep));
            && Holds(sys'.received, sys'.ahead, sys.c.io.fromHost) && sys.received <= sys'.received
            && (s.payload != [] && s.at <= |sys.received| ==> s.at + |s.payload| <= |sys'.received|)
  {
    var s := sys.c.io.tap[sys.next];
    assert s in sys.c.io.tap && Authentic(s, sys.c.io.fromHost, sys.c.t.hostEof);
    DeliverEffect(sys, tso, keep, |sys.c.io.fromHost|);
  }

  lemma DeliverNear(sys: System, tso: bool, keep: bool)
    requires Good(sys) && sys.next < |sys.c.io.tap|
    ensures var sys' := Next(sys, tso, Deliver(keep));
            Near(sys.c.io.tap, sys.next + 1, sys'.received, sys'.ahead)
  {
    var tap := sys.c.io.tap;
    var sys' := Next(sys, tso, Deliver(keep));
    forall i | sys.next + 1 <= i < |tap| && tap[i].payload != []
      ensures Reaches(sys'.received, sys'.ahead, tap[i].at + SPREAD)
    {
      DeliverEffect(sys, tso, keep, tap[i].at + SPREAD);
    }
  }

  lemma DeliverGood(sys: System, tso: bool, keep: bool)
    requires Good(sys)
    ensures Good(Next(sys, tso, Deliver(keep)))
  {
    if sys.next < |sys.c.io.tap| {
      var s := sys.c.io.tap[sys.next];
      NearDrop(sys);
      DeliverHolds(sys, tso, keep);
      DeliverNear(sys, tso, keep);
      assert s in sys.c.io.tap && Authentic(s, sys.c.io.fromHost, sys.c.t.hostEof);
      if s.flags.fin { WrapInjective(ISN + 1 + s.at, ISN + 1 + |sys.received|); }
    }
  }

  // ---------------------------------------------------------------------------------------------
  // Handlers
  // ---------------------------------------------------------------------------------------------

  /** The host stream only grows, not at all after EOF, and nothing counts as acked. */
  ghost predicate Grows(c: Conn, c': Conn) {
    && c.io.fromHost <= c'.io.fromHost
    && (c.t.hostEof ==> c'.t.hostEof && c'.io.fromHost == c.io.fromHost)
    && AckedBytes(c') == AckedBytes(c)
  }

  lemma FillGrows(c: Conn, recv: Recv)
    ensures Grows(c, Fill(c, recv).0)
  {
  }

  lemma ForwardGrows(c: Conn, budget: nat, drained: bool, tso: bool, now: nat)
    requires c.t.sentUnacked <= |c.t.queue| && c.t.guestMss > 0 && budget > 0
    ensures Grows(c, AfterFill(c, budget, drained, tso, now))
  {
  }

  lemma DataToGuestGrows(c: Conn, recv: Recv, tso: bool, now: nat)
    requires c.t.sentUnacked <= |c.t.queue| && c.t.guestMss > 0
    ensures Grows(c, DataToGuest(c, recv, tso, now))
  {
    if MaySend(c.t) {
      FillGrows(c, recv);
      FillFrame(c, recv);
      ForwardGrows(Fill(c, recv).0, c.t.guestWindow - c.t.sentUnacked, Fill(c, recv).1, tso, now);
    }
  }

  lemma DeliverGrows(c: Conn, h: Header, payload: seq<byte>, accept: nat, recv: Recv, tso: bool, now: nat)
    requires c.t.sentUnacked <= |c.t.queue| && c.t.guestMss > 0
    ensures Grows(c, MaybeClose(DataToGuest(Upload(c, h, payload, accept), recv, tso, now)))
  {
    UploadGrows(c, h, payload, accept);
    DataToGuestGrows(Upload(c, h, payload, accept), recv, tso, now);
  }

  lemma UploadGrows(c: Conn, h: Header, payload: seq<byte>, accept: nat)
    ensures Upload(c, h, payload, accept).io.fromHost == c.io.fromHost
    ensures Upload(c, h, payload, accept).t.hostEof == c.t.hostEof
  {
  }

  /** The events whose ack field an established flow reads. */
  predicate IsAck(c: Conn, e: Event) {
    && c.gone.None? && c.t.state.Established?
    && e.FromGuest? && e.header.flags.ack && !e.header.flags.syn && !e.header.flags.rst
  }

  lemma GuestGrows(c: Conn, h: Header, payload: seq<byte>, accept: nat, recv: Recv, tso: bool, now: nat)
    requires Inv(c) && (!h.flags.ack || h.flags.syn || h.flags.rst || c.t.state.Connecting?)
    ensures Grows(c, HandleGuest(c, h, payload, accept, recv, tso, now))
  {
    if c.t.state.Established? && !h.flags.syn && !h.flags.rst {
      DeliverGrows(c, h, payload, accept, recv, tso, now);
    }
  }

  lemma ReadyGrows(c: Conn, pollErr: bool, pollHup: bool, sockErr: bool, recv: Recv, tso: bool, now: nat)
    requires Inv(c)
    ensures Grows(c, HandleReady(c, pollErr, pollHup, sockErr, recv, tso, now))
  {
    DataToGuestGrows(c.(t := c.t.(pollArmed := false)), recv, tso, now);
  }

  lemma StaleGrows(c: Conn, recv: Recv, tso: bool, now: nat)
    requires c.t.sentUnacked <= |c.t.queue| && c.t.guestMss > 0
    ensures Grows(c, HandleStale(c, recv, tso, now))
  {
    DataToGuestGrows(Rewind(c, now), recv, tso, now);
  }

  lemma TimerGrows(c: Conn, recv: Recv, tso: bool, now: nat)
    requires Inv(c)
    ensures Grows(c, HandleTimer(c, recv, tso, now))
  {
    StaleGrows(FlushAck(c), recv, tso, now);
  }

  lemma OtherGrows(c: Conn, tso: bool, e: Event)
    requires Inv(c) && !IsAck(c, e)
    ensures Grows(c, Step(c, tso, e))
  {
    if c.gone.None? {
      match e
      case FromGuest(h, payload, accept, recv, now) => GuestGrows(c, h, payload, accept, recv, tso, now);
      case SocketReady(pollErr, pollHup, sockErr, recv, now) =>
        ReadyGrows(c, pollErr, pollHup, sockErr, recv, tso, now);
      case PollFailed =>
      case TimerTick(recv, now) => TimerGrows(c, recv, tso, now);
    }
  }

  lemma AckGrows(c: Conn, h: Header, payload: seq<byte>, accept: nat, recv: Recv, tso: bool, now: nat)
    requires Inv(c) && c.t.state.Established? && h.flags.ack && !h.flags.syn && !h.flags.rst
    ensures Grows(c.(t := AckFromGuest(c.t, h, payload == [], now)),
                  HandleGuest(c, h, payload, accept, recv, tso, now))
  {
    var c1 := c.(t := AckFromGuest(c.t, h, payload == [], now));
    DeliverGrows(c1, h, payload, accept, recv, tso, now);
  }

  /** After an honest ack, no more counts as acked than the guest has. */
  lemma AckBounded(sys: System, h: Header, payloadEmpty: bool, now: nat)
    requires Good(sys) && sys.c.t.state.Established? && AcksHonestly(sys, h)
    ensures AckedBytes(sys.c.(t := AckFromGuest(sys.c.t, h, payloadEmpty, now))) <= |sys.received|
  {
    var c := sys.c;
    AckReleases(c, h, payloadEmpty, now);
    var n := AckFrame(c.t, h, payloadEmpty, now);
    if !c.t.hostFin.Acked? {
      forall k | 0 < k <= c.t.sentUnacked && Names(h.ackno, c.t.seqUna, k)
        ensures AckedBytes(c) + k <= |sys.received|
      {
        AckNamesReceived(sys, h, k);
      }
    }
  }

  lemma AckNamesReceived(sys: System, h: Header, k: nat)
    requires Good(sys) && sys.c.t.state.Established? && !sys.c.t.hostFin.Acked? && AcksHonestly(sys, h)
    requires 0 < k <= sys.c.t.sentUnacked && Names(h.ackno, sys.c.t.seqUna, k)
    ensures AckedBytes(sys.c) + k <= |sys.received|
  {
    SeqOfLag(sys.c, k);
    if r: nat :| Position(h.ackno, r) && r <= |sys.received| < r + TWO32 / 2 {
      WrapInjective(ISN + 1 + r, ISN + 1 + AckedBytes(sys.c) + k);
    }
  }

  /** What a handler does to the system: the stream grows, and no more is acked than the guest has. */
  ghost predicate Bounded(sys: System, c': Conn) {
    && sys.c.io.fromHost <= c'.io.fromHost
    && (sys.c.t.hostEof ==> c'.t.hostEof && c'.io.fromHost == sys.c.io.fromHost)
    && AckedBytes(c') <= |sys.received|
  }

  lemma StepBounded(sys: System, tso: bool, e: Event)
    requires Good(sys) && Honest(sys, Handle(e))
    ensures Bounded(sys, Step(sys.c, tso, e))
  {
    if IsAck(sys.c, e) {
      var FromGuest(h, payload, accept, recv, now) := e;
      AckBounded(sys, h, payload == [], now);
      var n := AckFrame(sys.c.t, h, payload == [], now);
      AckGrows(sys.c, h, payload, accept, recv, tso, now);
    } else {
      OtherGrows(sys.c, tso, e);
    }
  }

  /** New frames lie beyond what was acked, so they are near the guest and near the older frames. */
  lemma NewFramesNear(sys: System, c': Conn)
    requires Good(sys) && Bounded(sys, c') && Inv(c')
    requires sys.c.io.tap <= c'.io.tap && Beyond(c'.io.tap, |sys.c.io.tap|, AckedBytes(sys.c))
    ensures Near(c'.io.tap, sys.next, sys.received, sys.ahead) && Spread(c'.io.tap, sys.next)
  {
    var old', tap := |sys.c.io.tap|, c'.io.tap;
    forall i | sys.next <= i < |tap| && tap[i].payload != []
      ensures Reaches(sys.received, sys.ahead, tap[i].at + SPREAD)
    {
      if i < old' { assert tap[i] == sys.c.io.tap[i]; }
    }
    forall i, j | sys.next <= i < j < |tap| && tap[i].payload != [] && tap[j].payload != []
      ensures tap[i].at + |tap[i].payload| <= tap[j].at + SPREAD
    {
      if j < old' {
        assert tap[i] == sys.c.io.tap[i] && tap[j] == sys.c.io.tap[j];
      } else {
        assert tap[i] in tap && Authentic(tap[i], c'.io.fromHost, c'.t.hostEof);
      }
    }
  }

  /** The tap only grew, by frames that carry nothing already acked. */
  ghost predicate GrowsBeyond(c: Conn, c': Conn) {
    c.io.tap <= c'.io.tap && Beyond(c'.io.tap, |c.io.tap|, AckedBytes(c))
  }

  lemma ConnectingBeyond(c: Conn, tso: bool, e: Event)
    requires Inv(c) && InSync(c) && c.t.state.Connecting?
    ensures GrowsBeyond(c, Step(c, tso, e))
  {
    match e
    case FromGuest(_, _, _, _, _) =>
    case SocketReady(_, _, _, _, _) =>
    case PollFailed =>
    case TimerTick(_, now) => assert now >= RTO ==> !TimerDue(c.t, now - RTO);
  }

  lemma StepBeyond(c: Conn, tso: bool, e: Event)
    requires Inv(c) && InSync(c)
    ensures GrowsBeyond(c, Step(c, tso, e))
  {
    if c.t.state.Connecting? {
      ConnectingBeyond(c, tso, e);
    } else if !IsSyn(c, e) {
      StepConsistent(c, tso, e);
    }
  }

  /** A FIN on the tap stays there. */
  lemma FinStays(c: Conn, c': Conn)
    requires Inv(c) && Inv(c') && c.io.tap <= c'.io.tap && !c.t.hostFin.NotSent?
    ensures !c'.t.hostFin.NotSent?
  {
    assert NoFin(c'.io.tap) ==> NoFin(c.io.tap);
  }

  lemma HandleGood(sys: System, tso: bool, e: Event)
    requires Good(sys) && Honest(sys, Handle(e)) && SynSafe(sys.c, e)
    ensures Good(Next(sys, tso, Handle(e)))
  {
    StepKeeps(sys.c, tso, e);
    StepInSync(sys.c, tso, e);
    StepBounded(sys, tso, e);
    StepBeyond(sys.c, tso, e);
    NewFramesNear(sys, Step(sys.c, tso, e));
    if sys.finSeen { FinStays(sys.c, Step(sys.c, tso, e)); }
  }

  lemma LoseGood(sys: System, tso: bool)
    requires Good(sys)
    ensures Good(Next(sys, tso, Lose))
  {
    if sys.next < |sys.c.io.tap| { NearDrop(sys); }
  }

  // ---------------------------------------------------------------------------------------------
  // Whole runs
  // ---------------------------------------------------------------------------------------------

  /** What is asked of the guest at each move: honest acks, slices of one stream, and safe SYNs. */
  ghost predicate WellBehaved(sys: System, m: Move, stream: seq<byte>) {
    Honest(sys, m) && (m.Handle? ==> SynSafe(sys.c, m.e) && GuestSends(sys.c, m.e, stream))
  }

  ghost predicate GoodBothWays(sys: System, stream: seq<byte>) {
    Good(sys) && UploadFaithful(sys.c, stream) && ClosedOk(sys.c)
  }

  lemma MoveGood(sys: System, tso: bool, m: Move, stream: seq<byte>)
    requires GoodBothWays(sys, stream) && WellBehaved(sys, m, stream)
    ensures GoodBothWays(Next(sys, tso, m), stream)
  {
    match m
    case Handle(e) =>
      HandleGood(sys, tso, e);
      StepUpload(sys.c, tso, e, stream);
      StepClosed(sys.c, tso, e);
    case Deliver(keep) => DeliverGood(sys, tso, keep);
    case Lose => LoseGood(sys, tso);
  }

  function RunSystem(sys: System, tso: bool, moves: seq<Move>): (r: System)
    requires Inv(sys.c)
    ensures Inv(r.c)
    decreases |moves|
  {
    if moves == [] then sys
    else
      var before, m := RunSystem(sys, tso, moves[..|moves| - 1]), moves[|moves| - 1];
      if m.Handle? then StepKeeps(before.c, tso, m.e); Next(before, tso, m) else Next(before, tso, m)
  }

  ghost predicate WellBehavedRun(sys: System, tso: bool, moves: seq<Move>, stream: seq<byte>)
    requires Inv(sys.c)
  {
    forall i :: 0 <= i < |moves| ==> WellBehaved(RunSystem(sys, tso, moves[..i]), moves[i], stream)
  }

  lemma WellBehavedPrefix(sys: System, tso: bool, moves: seq<Move>, stream: seq<byte>, n: nat)
    requires Inv(sys.c) && WellBehavedRun(sys, tso, moves, stream) && n <= |moves|
    ensures WellBehavedRun(sys, tso, moves[..n], stream)
  {
    forall i | 0 <= i < n ensures WellBehaved(RunSystem(sys, tso, moves[..n][..i]), moves[..n][i], stream) {
      assert moves[..n][..i] == moves[..i];
    }
  }

  lemma {:induction false} RunGood(sys: System, tso: bool, moves: seq<Move>, stream: seq<byte>)
    requires GoodBothWays(sys, stream) && WellBehavedRun(sys, tso, moves, stream)
    ensures GoodBothWays(RunSystem(sys, tso, moves), stream)
    decreases |moves|
  {
    if moves != [] {
      var n := |moves| - 1;
      WellBehavedPrefix(sys, tso, moves, stream, n);
      RunGood(sys, tso, moves[..n], stream);
      MoveGood(RunSystem(sys, tso, moves[..n]), tso, moves[n], stream);
    }
  }

  /** A new flow with a guest that has received nothing. */
  function Fresh(seqno: u32, window: u16, mss: Option<u16>, wscale: Option<byte>, start: nat): (sys: System)
    ensures Inv(sys.c)
  {
    System(Opened(seqno, window, mss, wscale, start), [], map[], false, 0)
  }

  /** Both ends hold prefixes of the other's stream: the whole one once our FIN is out, and both after a close. */
  ghost predicate Delivered(sys: System, stream: seq<byte>) {
    && sys.received <= sys.c.io.fromHost
    && sys.c.io.toHost <= stream
    && (!sys.c.t.hostFin.NotSent? ==> sys.received == sys.c.io.fromHost)
    && (sys.c.gone == Some(ByClose) ==>
          && sys.c.t.hostEof && sys.received == sys.c.io.fromHost
          && sys.c.io.toHost == stream && sys.c.io.shutAt == Some(|stream|))
  }

  lemma GoodIsDelivered(sys: System, stream: seq<byte>)
    requires GoodBothWays(sys, stream)
    ensures Delivered(sys, stream)
  {
  }

  /**
    End-to-end delivery.  Over every run of the flow, its guest and a tap that loses any frames, across
    any number of sequence number wraps: the guest holds a prefix of what the host sent and the host
    a prefix of what the guest sent; the guest holds everything by the time our FIN goes out, and a
    flow closed gracefully has delivered both streams completely.
   */
  lemma EndToEndDelivery(
    seqno: u32, window: u16, mss: Option<u16>, wscale: Option<byte>, start: nat, tso: bool, moves: seq<Move>,
    stream: seq<byte>)
    requires WellBehavedRun(Fresh(seqno, window, mss, wscale, start), tso, moves, stream)
    ensures Delivered(RunSystem(Fresh(seqno, window, mss, wscale, start), tso, moves), stream)
  {
    var sys := Fresh(seqno, window, mss, wscale, start);
    RunGood(sys, tso, moves, stream);
    GoodIsDelivered(RunSystem(sys, tso, moves), stream);
  }
}
