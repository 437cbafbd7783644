/** No flow is left without a wake-up source, no ack is forgotten, and the guest's window and MSS are respected. */
module TcpLiveness {
  import opened Words
  import opened Buffers
  import opened TcpModel
  import opened TcpInvariant
  import opened TcpLabels

  // ---------------------------------------------------------------------------------------------
  // Wake-up sources
  // ---------------------------------------------------------------------------------------------

  /**
    Something will wake the flow: an armed poll; or, once established, data in flight, a FIN sent or
    acked, or a closed guest window.
   */
  ghost predicate Awake(c: Conn) {
    c.gone.None? ==>
      || c.t.pollArmed
      || (c.t.state.Established? && (c.t.sentUnacked > 0 || !c.t.hostFin.NotSent? || c.t.guestWindow == 0))
  }

  lemma ForwardAwake(c: Conn, budget: nat, drained: bool, tso: bool, now: nat)
    requires Shape(c.t) && c.t.state.Established? && budget > 0
    requires drained || c.t.hostEof || c.t.sentUnacked < |c.t.queue| || |c.t.queue| == FRAME
    ensures Awake(Forward(c, budget, drained, tso, now))
  {
  }

  lemma FillProgress(c: Conn, recv: Recv)
    requires Shape(c.t)
    ensures var (c', drained) := Fill(c, recv);
            c'.gone.Some? || drained || c'.t.hostEof || c'.t.sentUnacked < |c'.t.queue| || |c'.t.queue| == FRAME
  {
  }

  /** However the flow was before, trying to send leaves it awake. */
  lemma DataToGuestAwake(c: Conn, recv: Recv, tso: bool, now: nat)
    requires Inv(c) && c.t.state.Established?
    ensures Awake(DataToGuest(c, recv, tso, now))
  {
    if MaySend(c.t) {
      FillProgress(c, recv);
      FillKeeps(c, recv);
      FillFrame(c, recv);
      var (c', drained) := Fill(c, recv);
      if c'.gone.None? { ForwardAwake(c', c.t.guestWindow - c.t.sentUnacked, drained, tso, now); }
    }
  }

  lemma RefillAwake(c: Conn, recv: Recv, tso: bool, now: nat)
    requires Inv(c) && c.t.state.Established?
    ensures Awake(MaybeClose(DataToGuest(c, recv, tso, now)))
  {
    DataToGuestAwake(c, recv, tso, now);
  }

  lemma DeliverAwake(c: Conn, h: Header, payload: seq<byte>, accept: nat, recv: Recv, tso: bool, now: nat)
    requires Inv(c) && c.t.state.Established?
    ensures Awake(MaybeClose(DataToGuest(Upload(c, h, payload, accept), recv, tso, now)))
  {
    UploadKeeps(c, h, payload, accept);
    UploadConsistent(c, h, payload, accept);
    RefillAwake(Upload(c, h, payload, accept), recv, tso, now);
  }

  /** Any guest segment other than a SYN revives an established flow, whatever state it was in. */
  lemma GuestRevives(c: Conn, h: Header, payload: seq<byte>, accept: nat, recv: Recv, tso: bool, now: nat)
    requires Inv(c) && c.t.state.Established? && (h.flags.rst || !h.flags.syn)
    ensures Awake(HandleGuest(c, h, payload, accept, recv, tso, now))
  {
    if !h.flags.rst {
      if h.flags.ack {
        AckKeeps(c, h, payload == [], now);
        AckKeepsState(c.t, h, payload == [], now);
        DeliverAwake(c.(t := AckFromGuest(c.t, h, payload == [], now)), h, payload, accept, recv, tso, now);
      } else {
        DeliverAwake(c, h, payload, accept, recv, tso, now);
      }
    }
  }

  lemma ReadyAwake(c: Conn, pollErr: bool, pollHup: bool, sockErr: bool, recv: Recv, tso: bool, now: nat)
    requires Inv(c)
    ensures Awake(HandleReady(c, pollErr, pollHup, sockErr, recv, tso, now))
  {
    if c.t.state.Established? { RefillAwake(c.(t := c.t.(pollArmed := false)), recv, tso, now); }
  }

  lemma StaleAwake(c: Conn, recv: Recv, tso: bool, now: nat)
    requires Inv(c) && Awake(c)
    ensures Awake(HandleStale(c, recv, tso, now))
  {
    if c.t.sentUnacked > 0 { DataToGuestAwake(Rewind(c, now), recv, tso, now); }
  }

  lemma TimerAwake(c: Conn, recv: Recv, tso: bool, now: nat)
    requires Inv(c) && Awake(c)
    ensures Awake(HandleTimer(c, recv, tso, now))
  {
    FlushKeeps(c);
    StaleAwake(FlushAck(c), recv, tso, now);
  }

  /** The SYN branch forgets what is in flight; it leaves the flow awake exactly when something else will wake it. */
  lemma SynAwake(c: Conn)
    requires Inv(c) && c.t.state.Established? && c.gone.None?
    ensures Awake(HandleSyn(c)) <==> c.t.pollArmed || !c.t.hostFin.NotSent? || c.t.guestWindow == 0
  {
  }

  ghost predicate SynWakes(c: Conn, e: Event) {
    IsSyn(c, e) ==> c.t.pollArmed || !c.t.hostFin.NotSent? || c.t.guestWindow == 0
  }

  lemma StepAwake(c: Conn, tso: bool, e: Event)
    requires Inv(c) && Awake(c) && SynWakes(c, e)
    ensures Awake(Step(c, tso, e))
  {
    if c.gone.None? {
      match e
      case FromGuest(h, payload, accept, recv, now) =>
        if c.t.state.Established? {
          if h.flags.syn && !h.flags.rst {
            SynAwake(c);
          } else {
            GuestRevives(c, h, payload, accept, recv, tso, now);
          }
        }
      case SocketReady(pollErr, pollHup, sockErr, recv, now) =>
        ReadyAwake(c, pollErr, pollHup, sockErr, recv, tso, now);
      case PollFailed =>
      case TimerTick(recv, now) => TimerAwake(c, recv, tso, now);
    }
  }

  ghost predicate SynWakesRun(c: Conn, tso: bool, events: seq<Event>)
    requires Inv(c)
  {
    forall i :: 0 <= i < |events| ==> SynWakes(Run(c, tso, events[..i]), events[i])
  }

  lemma SynWakesPrefix(c: Conn, tso: bool, events: seq<Event>, n: nat)
    requires Inv(c) && SynWakesRun(c, tso, events) && n <= |events|
    ensures SynWakesRun(c, tso, events[..n])
  {
    forall i | 0 <= i < n ensures SynWakes(Run(c, tso, events[..n][..i]), events[..n][i]) {
      assert events[..n][..i] == events[..i];
    }
  }

  /** No stuck flow: after every run whose SYNs leave one, the flow has a wake-up source. */
  lemma {:induction false} NeverStuck(c: Conn, tso: bool, events: seq<Event>)
    requires Inv(c) && Awake(c) && SynWakesRun(c, tso, events)
    ensures Awake(Run(c, tso, events))
    decreases |events|
  {
    if events != [] {
      var n := |events| - 1;
      SynWakesPrefix(c, tso, events, n);
      NeverStuck(c, tso, events[..n]);
      StepAwake(Run(c, tso, events[..n]), tso, events[n]);
    }
  }

  ghost predicate AwakeThroughout(c: Conn, tso: bool, events: seq<Event>)
    requires Inv(c)
  {
    forall i :: 0 <= i <= |events| ==> Awake(Run(c, tso, events[..i]))
  }

  /** A flow has a wake-up source in every state of a run if and only if every SYN of the run leaves it one. */
  lemma AwakeExactly(c: Conn, tso: bool, events: seq<Event>)
    requires Inv(c) && Awake(c)
    ensures AwakeThroughout(c, tso, events) <==> SynWakesRun(c, tso, events)
  {
    if AwakeThroughout(c, tso, events) {
      forall i | 0 <= i < |events| ensures SynWakes(Run(c, tso, events[..i]), events[i]) {
        assert events[..i + 1][..i] == events[..i];
        assert Awake(Run(c, tso, events[..i + 1]));
        AwakeAfterSyn(Run(c, tso, events[..i]), tso, events[i]);
      }
    }
    if SynWakesRun(c, tso, events) {
      forall i | 0 <= i <= |events| ensures Awake(Run(c, tso, events[..i])) {
        SynWakesPrefix(c, tso, events, i);
        NeverStuck(c, tso, events[..i]);
      }
    }
  }

  lemma AwakeAfterSyn(c: Conn, tso: bool, e: Event)
    requires Inv(c) && Awake(Step(c, tso, e))
    ensures SynWakes(c, e)
  {
    if IsSyn(c, e) { SynAwake(c); }
  }

  /** A flow that waits for neither its socket nor the guest's FIN is picked by the timer once it is stale. */
  lemma TimerSelects(c: Conn, cutoff: nat)
    requires Inv(c) && Awake(c) && c.gone.None?
    requires !c.t.pollArmed && !c.t.hostFin.Acked? && c.t.lastProgress < cutoff
    ensures TimerDue(c.t, cutoff)
  {
  }

  // ---------------------------------------------------------------------------------------------
  // What the timer does for a stalled flow
  // ---------------------------------------------------------------------------------------------

  /** The flow said something to the guest. */
  ghost predicate Spoke(c: Conn, c': Conn) { |c'.io.tap| > |c.io.tap| }

  lemma ForwardSpeaks(c: Conn, budget: nat, drained: bool, tso: bool, now: nat)
    requires Core(c) && c.t.sentUnacked < |c.t.queue| && budget > 0
    ensures Spoke(c, Forward(c, budget, drained, tso, now))
  {
    NewSegmentsOk(c, budget, tso);
  }

  /** Resending with an open window puts at least one segment on the tap. */
  lemma ResendSpeaks(c: Conn, recv: Recv, tso: bool, now: nat)
    requires Inv(c) && c.gone.None? && c.t.state.Established? && c.t.hostFin.NotSent?
    requires c.t.sentUnacked == 0 && c.t.queue != [] && c.t.guestWindow > 0
    ensures Spoke(c, DataToGuest(c, recv, tso, now))
  {
    FillKeeps(c, recv);
    FillFrame(c, recv);
    FillConsistent(c, recv);
    var (c', drained) := Fill(c, recv);
    if c'.gone.None? { ForwardSpeaks(c', c.t.guestWindow - c.t.sentUnacked, drained, tso, now); }
  }

  /** Bytes wait with nothing in flight, since `now`. */
  ghost predicate Idle(c: Conn, now: nat) {
    && c.gone.None? && c.t.state.Established? && c.t.sentUnacked == 0 && c.t.hostFin.NotSent? && c.t.queue != []
    && c.t.lastProgress == now
  }

  /** Data in flight with the window closed: the tick rewinds, and the next stale tick probes. */
  ghost predicate Rewound(c: Conn, now: nat) { Idle(c, now) && c.t.guestWindow == 0 }

  lemma StaleSpeaks(c: Conn, recv: Recv, tso: bool, now: nat)
    requires Inv(c) && Awake(c) && c.gone.None? && !c.t.pollArmed && !c.t.hostFin.Acked?
    ensures Spoke(c, HandleStale(c, recv, tso, now)) || Rewound(HandleStale(c, recv, tso, now), now)
  {
    if c.t.guestWindow > 0 && c.t.sentUnacked > 0 { ResendSpeaks(Rewind(c, now), recv, tso, now); }
  }

  lemma TickSpeaks(c: Conn, recv: Recv, tso: bool, now: nat)
    requires Inv(c) && Awake(c) && c.gone.None? && !c.t.pollArmed && !c.t.hostFin.Acked?
    requires now >= RTO && c.t.lastProgress < now - RTO
    ensures Spoke(c, HandleTimer(c, recv, tso, now)) || Rewound(HandleTimer(c, recv, tso, now), now)
  {
    TimerSelects(c, now - RTO);
    FlushKeeps(c);
    StaleSpeaks(FlushAck(c), recv, tso, now);
  }

  lemma RewoundTickSpeaks(c: Conn, recv: Recv, tso: bool, before: nat, now: nat)
    requires Inv(c) && Rewound(c, before) && before + RTO < now
    ensures Spoke(c, HandleTimer(c, recv, tso, now))
  {
  }

  /** An established flow stays so, and what is on the tap stays there. */
  lemma StepTap(c: Conn, tso: bool, e: Event)
    requires Inv(c) && c.t.state.Established?
    ensures Step(c, tso, e).t.state.Established? && |Step(c, tso, e).io.tap| >= |c.io.tap|
  {
    if !IsSyn(c, e) { StepConsistent(c, tso, e); }
  }

  /** Spoken to the guest, or dropped by it. */
  ghost predicate Heard(tap: seq<Segment>, c: Conn) { |c.io.tap| > |tap| || c.gone == Some(ByGuest) }

  lemma HeardStays(tap: seq<Segment>, c: Conn, tso: bool, e: Event)
    requires Inv(c) && c.t.state.Established? && Heard(tap, c)
    ensures Heard(tap, Step(c, tso, e))
  {
    StepTap(c, tso, e);
  }

  lemma AckIdle(c: Conn, h: Header, payloadEmpty: bool, now: nat, before: nat)
    requires Inv(c) && Idle(c, before)
    ensures Idle(c.(t := AckFromGuest(c.t, h, payloadEmpty, now)), before)
  {
  }

  lemma UploadIdle(c: Conn, h: Header, payload: seq<byte>, accept: nat, before: nat)
    requires Idle(c, before)
    ensures var c' := Upload(c, h, payload, accept);
            Idle(c', before) && |c'.io.tap| >= |c.io.tap| && c'.t.guestWindow == c.t.guestWindow
  {
    var n := Accepted(c, h, payload, accept);
    var c1 := TakePayload(c, payload, n);
    var c2 := c1.(t := c1.t.(ackDeferred := true));
    UploadSame(c1, h, payload);
    UploadSame(c2, h, payload);
  }

  /** What the FIN and the ack of a guest frame leave alone. */
  lemma UploadSame(c: Conn, h: Header, payload: seq<byte>)
    ensures var f := TakeFin(c, h, payload);
            && f.t.queue == c.t.queue && f.t.sentUnacked == c.t.sentUnacked && f.t.hostFin == c.t.hostFin
            && f.t.lastProgress == c.t.lastProgress && f.t.state == c.t.state && f.t.guestWindow == c.t.guestWindow
            && f.gone == c.gone && f.io.tap == c.io.tap
  {
  }

  lemma UploadNothing(c: Conn, h: Header)
    requires !h.flags.fin
    ensures Upload(c, h, [], 0) == c
  {
    assert c.io.toHost + [] == c.io.toHost;
  }

  lemma DeliverIdle(c: Conn, h: Header, payload: seq<byte>, accept: nat, recv: Recv, tso: bool, now: nat, before: nat)
    requires Inv(c) && Idle(c, before)
    ensures var c' := MaybeClose(DataToGuest(Upload(c, h, payload, accept), recv, tso, now));
            Spoke(c, c') || Rewound(c', before)
  {
    UploadIdle(c, h, payload, accept, before);
    UploadKeeps(c, h, payload, accept);
    if c.t.guestWindow > 0 { ResendSpeaks(Upload(c, h, payload, accept), recv, tso, now); }
  }

  lemma GuestIdle(c: Conn, h: Header, payload: seq<byte>, accept: nat, recv: Recv, tso: bool, now: nat, before: nat)
    requires Inv(c) && Idle(c, before)
    ensures var c' := HandleGuest(c, h, payload, accept, recv, tso, now);
            Heard(c.io.tap, c') || Rewound(c', before)
  {
    if !h.flags.rst && !h.flags.syn {
      if h.flags.ack {
        var c1 := c.(t := AckFromGuest(c.t, h, payload == [], now));
        AckIdle(c, h, payload == [], now, before);
        AckKeeps(c, h, payload == [], now);
        DeliverIdle(c1, h, payload, accept, recv, tso, now, before);
      } else {
        DeliverIdle(c, h, payload, accept, recv, tso, now, before);
      }
    }
  }

  /** Whatever comes in between, a flow that waits goes on waiting until it is heard. */
  lemma StepWaits(c: Conn, tso: bool, e: Event, before: nat)
    requires Inv(c) && Rewound(c, before)
    ensures Heard(c.io.tap, Step(c, tso, e)) || Rewound(Step(c, tso, e), before)
  {
    match e
    case FromGuest(h, payload, accept, recv, now) => GuestIdle(c, h, payload, accept, recv, tso, now, before);
    case SocketReady(_, _, _, _, _) =>
    case PollFailed =>
    case TimerTick(_, _) =>
  }

  lemma {:induction false} RunWaits(c: Conn, tso: bool, events: seq<Event>, before: nat)
    requires Inv(c) && Rewound(c, before)
    ensures var c' := Run(c, tso, events);
            c'.t.state.Established? && |c'.io.tap| >= |c.io.tap| && (Heard(c.io.tap, c') || Rewound(c', before))
    decreases |events|
  {
    if events != [] {
      var n := |events| - 1;
      var c' := Run(c, tso, events[..n]);
      RunWaits(c, tso, events[..n], before);
      StepTap(c', tso, events[n]);
      if Heard(c.io.tap, c') {
        HeardStays(c.io.tap, c', tso, events[n]);
      } else {
        StepWaits(c', tso, events[n], before);
      }
    }
  }

  lemma WaitsTickSpeaks(tap: seq<Segment>, c: Conn, recv: Recv, tso: bool, before: nat, now: nat)
    requires Inv(c) && Rewound(c, before) && before + RTO < now && |c.io.tap| >= |tap|
    ensures Heard(tap, Step(c, tso, TimerTick(recv, now)))
  {
    RewoundTickSpeaks(c, recv, tso, before, now);
  }

  lemma TickWaits(c: Conn, recv: Recv, tso: bool, now: nat)
    requires Inv(c) && Awake(c) && c.gone.None? && !c.t.pollArmed && !c.t.hostFin.Acked?
    requires now >= RTO && c.t.lastProgress < now - RTO
    ensures var c' := HandleTimer(c, recv, tso, now);
            c'.t.state.Established? && |c'.io.tap| >= |c.io.tap| && (Spoke(c, c') || Rewound(c', now))
  {
    TickSpeaks(c, recv, tso, now);
    TimerConsistent(c, recv, tso, now);
  }

  /**
    A stalled flow is never left alone: when two timer ticks are more than a timeout apart, then by the
    end of the second one, whatever happened in between, a segment (retransmission, FIN, probe or RST)
    went to the tap, unless the guest dropped the flow.
   */
  lemma StalledFlowSpeaks(
    c: Conn, tso: bool, recv1: Recv, now1: nat, between: seq<Event>, recv2: Recv, now2: nat)
    requires Inv(c) && Awake(c) && c.gone.None? && !c.t.pollArmed && !c.t.hostFin.Acked?
    requires c.t.lastProgress + RTO < now1 && now1 + RTO < now2
    ensures var c1 := Step(c, tso, TimerTick(recv1, now1));
            Inv(c1) && Heard(c.io.tap, Step(Run(c1, tso, between), tso, TimerTick(recv2, now2)))
  {
    StepKeeps(c, tso, TimerTick(recv1, now1));
    TickWaits(c, recv1, tso, now1);
    var c1 := Step(c, tso, TimerTick(recv1, now1));
    var c2 := Run(c1, tso, between);
    if Spoke(c, c1) {
      RunHeard(c.io.tap, c1, tso, between);
      HeardStays(c.io.tap, c2, tso, TimerTick(recv2, now2));
    } else {
      RunWaits(c1, tso, between, now1);
      if Heard(c1.io.tap, c2) {
        HeardStays(c.io.tap, c2, tso, TimerTick(recv2, now2));
      } else {
        WaitsTickSpeaks(c.io.tap, c2, recv2, tso, now1, now2);
      }
    }
  }

  lemma {:induction false} RunHeard(tap: seq<Segment>, c: Conn, tso: bool, events: seq<Event>)
    requires Inv(c) && c.t.state.Established? && Heard(tap, c)
    ensures Heard(tap, Run(c, tso, events)) && Run(c, tso, events).t.state.Established?
    decreases |events|
  {
    if events != [] {
      var n := |events| - 1;
      RunHeard(tap, c, tso, events[..n]);
      HeardStays(tap, Run(c, tso, events[..n]), tso, events[n]);
      StepTap(Run(c, tso, events[..n]), tso, events[n]);
    }
  }

  // ---------------------------------------------------------------------------------------------
  // Owed acks
  // ---------------------------------------------------------------------------------------------

  /** A data-bearing segment that reaches an established flow. */
  predicate IsData(c: Conn, e: Event) {
    && c.gone.None? && c.t.state.Established?
    && e.FromGuest? && e.payload != [] && !e.header.flags.syn && !e.header.flags.rst
  }

  lemma UploadAcks(c: Conn, h: Header, payload: seq<byte>, accept: nat)
    requires payload != []
    ensures var c' := Upload(c, h, payload, accept);
            if c.t.ackDeferred then Spoke(c, c') && !c'.t.ackDeferred else Spoke(c, c') || c'.t.ackDeferred
  {
  }

  lemma DeliverAcks(c: Conn, h: Header, payload: seq<byte>, accept: nat, recv: Recv, tso: bool, now: nat)
    requires Inv(c) && c.t.state.Established? && payload != []
    ensures var c' := MaybeClose(DataToGuest(Upload(c, h, payload, accept), recv, tso, now));
            if c.t.ackDeferred then Spoke(c, c') && !c'.t.ackDeferred else Spoke(c, c') || c'.t.ackDeferred
  {
    var c1 := Upload(c, h, payload, accept);
    UploadAcks(c, h, payload, accept);
    UploadKeeps(c, h, payload, accept);
    DataToGuestFrame(c1, recv, tso, now);
    RefillConsistent(c1, recv, tso, now);
  }

  /**
    Delayed acks: a data-bearing frame is answered at once or leaves a deferral behind, and the next
    one after a deferral is always answered, so no two of them in a row go without an ack.
   */
  lemma EverySecondFrameAcked(c: Conn, tso: bool, e: Event)
    requires Inv(c) && IsData(c, e)
    ensures var c' := Step(c, tso, e);
            if c.t.ackDeferred then Spoke(c, c') && !c'.t.ackDeferred else Spoke(c, c') || c'.t.ackDeferred
  {
    var FromGuest(h, payload, accept, recv, now) := e;
    if h.flags.ack {
      var n := AckFrame(c.t, h, payload == [], now);
      AckKeeps(c, h, payload == [], now);
      DeliverAcks(c.(t := AckFromGuest(c.t, h, payload == [], now)), h, payload, accept, recv, tso, now);
    } else {
      DeliverAcks(c, h, payload, accept, recv, tso, now);
    }
  }

  lemma StaleFlushed(c: Conn, recv: Recv, tso: bool, now: nat)
    requires Inv(c) && !c.t.ackDeferred
    ensures var c' := HandleStale(c, recv, tso, now); !c'.t.ackDeferred && |c'.io.tap| >= |c.io.tap|
  {
    DataToGuestFrame(Rewind(c, now), recv, tso, now);
    StaleConsistent(c, recv, tso, now);
  }

  /** A timer tick flushes every deferred ack. */
  lemma TimerFlushes(c: Conn, recv: Recv, tso: bool, now: nat)
    requires Inv(c) && now >= RTO
    ensures var c' := HandleTimer(c, recv, tso, now);
            !c'.t.ackDeferred && c'.io.quiet == 0 && (c.t.ackDeferred ==> Spoke(c, c'))
  {
    FlushKeeps(c);
    StaleFlushed(FlushAck(c), recv, tso, now);
    TimerKeeps(c, recv, tso, now);
  }

  // ---------------------------------------------------------------------------------------------
  // Window and segment size
  // ---------------------------------------------------------------------------------------------

  /** Frames the guest can take: no longer than its MSS, or marked for resegmentation at it. */
  ghost predicate Sized(segs: seq<Segment>, mss: nat) {
    forall s :: s in segs ==> s.gso == Some(mss) || (s.gso == None && |s.payload| <= mss)
  }

  /** What one send puts on the tap: the next bytes of the stream, in order, in frames the guest can take. */
  ghost predicate Sends(c: Conn, c': Conn) {
    && c.io.tap <= c'.io.tap
    && 0 <= SendOffset(c) <= SendOffset(c') <= |c'.io.fromHost|
    && (c'.t.sentUnacked != c.t.sentUnacked ==>
          && c'.t.sentUnacked <= c.t.guestWindow
          && Tiles(c'.io.tap[|c.io.tap|..], c'.io.fromHost[SendOffset(c)..SendOffset(c')], SendOffset(c))
          && Sized(c'.io.tap[|c.io.tap|..], c.t.guestMss))
  }

  lemma CutSized(data: seq<byte>, how: Framing, at: int, mss: nat)
    requires how.chunk > 0 && (how.gso == Some(mss) || (how.gso == None && how.chunk <= mss))
    ensures Sized(Cut(data, how, at), mss)
  {
    CutSlices(data, how, at);
  }

  lemma NewSegmentsTile(c: Conn, budget: nat, tso: bool)
    requires c.t.sentUnacked < |c.t.queue| && budget > 0 && c.t.guestMss > 0
    ensures Tiles(NewSegments(c, budget, tso), c.t.queue[c.t.sentUnacked..c.t.sentUnacked + SendLen(c.t, budget)],
                  SendOffset(c))
    ensures Sized(NewSegments(c, budget, tso), c.t.guestMss)
  {
    var sent, len := c.t.sentUnacked, SendLen(c.t, budget);
    var how := FramingOf(c, len, tso);
    CutTiles(c.t.queue[sent..sent + len], how, SendOffset(c));
    CutSized(c.t.queue[sent..sent + len], how, SendOffset(c), c.t.guestMss);
  }

  lemma TailSlice(queue: seq<byte>, stream: seq<byte>, a: nat, b: nat)
    requires Tail(queue, stream) && a <= b <= |queue|
    ensures queue[a..b] == stream[|stream| - |queue| + a..|stream| - |queue| + b]
  {
  }

  lemma AppendSends(c: Conn, segs: seq<Segment>, len: nat, c': Conn)
    requires Inv(c) && c.t.sentUnacked + len <= Min(|c.t.queue|, c.t.guestWindow)
    requires Tiles(segs, c.t.queue[c.t.sentUnacked..c.t.sentUnacked + len], SendOffset(c)) && Sized(segs, c.t.guestMss)
    requires c'.io.tap == c.io.tap + segs && c'.io.fromHost == c.io.fromHost
    requires c'.t.queue == c.t.queue && c'.t.sentUnacked == c.t.sentUnacked + len
    ensures Sends(c, c')
  {
    assert (c.io.tap + segs)[|c.io.tap|..] == segs;
    TailSlice(c.t.queue, c.io.fromHost, c.t.sentUnacked, c.t.sentUnacked + len);
  }

  lemma SendNewSends(c: Conn, budget: nat, drained: bool, tso: bool, now: nat)
    requires Inv(c) && c.t.sentUnacked < |c.t.queue| && 0 < budget <= c.t.guestWindow - c.t.sentUnacked
    ensures Sends(c, SendNew(c, budget, drained, tso, now))
  {
    NewSegmentsTile(c, budget, tso);
    AppendSends(c, NewSegments(c, budget, tso), SendLen(c.t, budget), SendNew(c, budget, drained, tso, now));
  }

  /** A call that sends no data. */
  lemma SendsNothing(c: Conn, c': Conn)
    requires Inv(c) && Core(c') && c.io.tap <= c'.io.tap
    requires SendOffset(c') == SendOffset(c) && c'.t.sentUnacked == c.t.sentUnacked
    ensures Sends(c, c')
  {
  }

  lemma ForwardSends(c: Conn, budget: nat, drained: bool, tso: bool, now: nat)
    requires Inv(c) && c.t.state.Established? && c.t.hostFin.NotSent?
    requires 0 < budget <= c.t.guestWindow - c.t.sentUnacked
    ensures Sends(c, Forward(c, budget, drained, tso, now))
  {
    if |c.t.queue| == c.t.sentUnacked {
      SendNothingKeeps(c, drained, now);
      SendsNothing(c, SendNothing(c, drained, now));
    } else {
      SendNewSends(c, budget, drained, tso, now);
    }
  }

  /** A read moves no position, and sends nothing but the RST that ends the flow. */
  lemma FillOffset(c: Conn, recv: Recv)
    requires c.gone.None?
    ensures var c' := Fill(c, recv).0;
            SendOffset(c') == SendOffset(c) && c.io.tap <= c'.io.tap && (c'.gone.None? ==> c'.io.tap == c.io.tap)
  {
  }

  lemma SendsFrom(c: Conn, c1: Conn, c2: Conn)
    requires Sends(c1, c2) && c1.io.tap == c.io.tap && SendOffset(c1) == SendOffset(c)
    requires c1.t.sentUnacked == c.t.sentUnacked
    requires c1.t.guestWindow == c.t.guestWindow && c1.t.guestMss == c.t.guestMss
    ensures Sends(c, c2)
  {
  }

  lemma AfterFillSends(c: Conn, c1: Conn, budget: nat, drained: bool, tso: bool, now: nat)
    requires Inv(c) && Inv(c1) && c1.t.state.Established? && c1.t.hostFin.NotSent?
    requires 0 < budget <= c1.t.guestWindow - c1.t.sentUnacked
    requires SendOffset(c1) == SendOffset(c) && c.io.tap <= c1.io.tap && (c1.gone.None? ==> c1.io.tap == c.io.tap)
    requires c1.t.sentUnacked == c.t.sentUnacked
    requires c1.t.guestWindow == c.t.guestWindow && c1.t.guestMss == c.t.guestMss
    ensures Sends(c, AfterFill(c1, budget, drained, tso, now))
  {
    if c1.gone.Some? {
      SendsNothing(c, c1);
    } else {
      ForwardSends(c1, budget, drained, tso, now);
      SendsFrom(c, c1, Forward(c1, budget, drained, tso, now));
    }
  }

  /**
    Segmentation: one call sends exactly the next stretch of the host stream, cut into contiguous
    frames no longer than the guest's MSS unless marked for resegmentation at it, and leaves no more
    in flight than the guest's window.
   */
  lemma DataToGuestSends(c: Conn, recv: Recv, tso: bool, now: nat)
    requires Inv(c) && c.gone.None?
    ensures Sends(c, DataToGuest(c, recv, tso, now))
  {
    if !MaySend(c.t) {
      SendsNothing(c, c);
    } else {
      FillKeeps(c, recv);
      FillFrame(c, recv);
      FillOffset(c, recv);
      AfterFillSends(c, Fill(c, recv).0, c.t.guestWindow - c.t.sentUnacked, Fill(c, recv).1, tso, now);
    }
  }
}
