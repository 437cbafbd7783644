/**
  The event loop and its flows: the connection in a live slot is always the outcome of a run of the
  single-flow machine, so what is proved of such runs holds of every flow of the loop.
 */
module LoopDelivery {
  import opened Words
  import opened TcpModel
  import opened TcpInvariant
  import opened TcpDelivery
  import opened FlowTable
  import opened EventLoop
  import opened Dispatch
  import opened Wakeups

  // ---------------------------------------------------------------------------------------------
  // Histories
  // ---------------------------------------------------------------------------------------------

  /** How a flow was opened, and what happened to it since. */
  datatype History = History(
    seqno: u32, window: u16, mss: Option<u16>, wscale: Option<byte>, start: nat, events: seq<Event>)

  ghost function Opening(h: History): (c: Conn)
    ensures Inv(c)
  {
    Opened(h.seqno, h.window, h.mss, h.wscale, h.start)
  }

  ghost function EndOf(h: History, tso: bool): (c: Conn)
    ensures Inv(c)
  {
    Run(Opening(h), tso, h.events)
  }

  /** The guest's SYNs were safe and its segments slices of `stream`. */
  ghost predicate FairHistory(h: History, tso: bool, stream: seq<byte>) {
    SynSafeRun(Opening(h), tso, h.events) && GuestSendsRun(Opening(h), tso, h.events, stream)
  }

  /** `c` is where a run of the single-flow machine ends, one with a fair guest if asked for. */
  ghost predicate IsOutcome(c: Conn, tso: bool, stream: seq<byte>, fair: bool) {
    exists h: History :: EndOf(h, tso) == c && (fair ==> FairHistory(h, tso, stream))
  }

  lemma OpenedIsOutcome(
    seqno: u32, window: u16, mss: Option<u16>, wscale: Option<byte>, start: nat, tso: bool,
    stream: seq<byte>, fair: bool)
    ensures IsOutcome(Open(seqno, window, mss, wscale, start), tso, stream, fair)
  {
    var h := History(seqno, window, mss, wscale, start, []);
    assert EndOf(h, tso) == Open(seqno, window, mss, wscale, start) && FairHistory(h, tso, stream);
  }

  lemma HistoryGrows(h: History, tso: bool, e: Event, stream: seq<byte>, fair: bool) returns (h': History)
    requires fair ==> FairHistory(h, tso, stream)
    requires fair ==> SynSafe(EndOf(h, tso), e) && GuestSends(EndOf(h, tso), e, stream)
    ensures EndOf(h', tso) == Step(EndOf(h, tso), tso, e) && (fair ==> FairHistory(h', tso, stream))
  {
    h' := h.(events := h.events + [e]);
    assert h'.events[..|h.events|] == h.events;
    if fair { FairGrows(h, h', tso, e, stream); }
  }

  lemma FairGrows(h: History, h': History, tso: bool, e: Event, stream: seq<byte>)
    requires FairHistory(h, tso, stream) && h' == h.(events := h.events + [e])
    requires SynSafe(EndOf(h, tso), e) && GuestSends(EndOf(h, tso), e, stream)
    ensures FairHistory(h', tso, stream)
  {
    var c, n := Opening(h), |h.events|;
    forall i | 0 <= i < n + 1
      ensures SynSafe(Run(c, tso, h'.events[..i]), h'.events[i])
      ensures GuestSends(Run(c, tso, h'.events[..i]), h'.events[i], stream)
    {
      assert h'.events[..i] == h.events[..i];
      if i == n { assert h.events[..n] == h.events; }
    }
  }

  /** One more event of the single-flow machine. */
  lemma OutcomeGrows(c: Conn, tso: bool, e: Event, stream: seq<byte>, fair: bool)
    requires Inv(c) && IsOutcome(c, tso, stream, fair)
    requires fair ==> SynSafe(c, e) && GuestSends(c, e, stream)
    ensures IsOutcome(Step(c, tso, e), tso, stream, fair)
  {
    var h: History :| EndOf(h, tso) == c && (fair ==> FairHistory(h, tso, stream));
    var h' := HistoryGrows(h, tso, e, stream, fair);
  }

  // ---------------------------------------------------------------------------------------------
  // Slots
  // ---------------------------------------------------------------------------------------------

  /** What each flow, by its number, gets to send. */
  type Streams = nat -> seq<byte>

  ghost predicate SlotTold(f: FlowTable.Flow, tso: bool, streams: Streams, fair: bool) {
    !f.closing && f.tcp.Some? ==> f.tcp.value.gone.None? && IsOutcome(f.tcp.value, tso, streams(f.owner), fair)
  }

  ghost predicate ToldBut(l: Loop, x: int, tso: bool, streams: Streams, fair: bool) {
    forall id: nat :: Occupied(l.table, id) && id != x ==> SlotTold(l.table.flows[id].value, tso, streams, fair)
  }

  /** Every live connection is such an outcome. */
  ghost predicate Told(l: Loop, tso: bool, streams: Streams, fair: bool) { ToldBut(l, -1, tso, streams, fair) }

  lemma OnlyHereTold(l: Loop, l': Loop, id: nat, tso: bool, streams: Streams, fair: bool)
    requires ToldBut(l, id, tso, streams, fair) && OnlyHere(l, l', id)
    requires Occupied(l'.table, id) ==> SlotTold(l'.table.flows[id].value, tso, streams, fair)
    ensures Told(l', tso, streams, fair)
  {
  }

  lemma ToldWeakens(l: Loop, id: nat, tso: bool, streams: Streams, fair: bool)
    requires Told(l, tso, streams, fair)
    ensures ToldBut(l, id, tso, streams, fair)
    ensures Occupied(l.table, id) ==> SlotTold(l.table.flows[id].value, tso, streams, fair)
  {
  }

  /** Flows are closed or freed without touching any connection. */
  lemma RemoveTold(l: Loop, id: nat, tso: bool, streams: Streams, fair: bool)
    requires Told(l, tso, streams, fair)
    ensures Told(RemoveFlow(l, id), tso, streams, fair) && Told(FreeSlot(l, id), tso, streams, fair)
  {
    ToldWeakens(l, id, tso, streams, fair);
    RemoveOnlyHere(l, id);
    OnlyHereTold(l, RemoveFlow(l, id), id, tso, streams, fair);
    OnlyHereTold(l, FreeSlot(l, id), id, tso, streams, fair);
  }

  lemma SettleSlot(l: Loop, id: nat, f: FlowTable.Flow, polled: bool, tso: bool, streams: Streams, fair: bool)
    requires Occupied(l.table, id)
    requires !f.closing && f.tcp.Some? && f.tcp.value.gone.None? ==>
               IsOutcome(f.tcp.value, tso, streams(f.owner), fair)
    ensures var l' := Settle(l, id, f, polled);
            Occupied(l'.table, id) ==> SlotTold(l'.table.flows[id].value, tso, streams, fair)
  {
    var l1 := PutFlow(l, id, f);
    var l2 := if polled then PushOp(l1, id) else l1;
    assert l2.table.flows[id] == Some(f);
    if f.tcp.Some? && f.tcp.value.gone.Some? { RemovedNotLive(l2, id); }
  }

  lemma RemovedNotLive(l: Loop, id: nat)
    ensures !Live(RemoveFlow(l, id).table, id)
  {
  }

  /** A handler on one slot. */
  lemma HandledTold(l: Loop, id: nat, c': Conn, lastActive: nat, tso: bool, streams: Streams, fair: bool)
    requires ToldBut(l, id, tso, streams, fair) && ConnOf(l, id).Some? && l.nextOp !in l.ops
    requires Live(l.table, id) ==> IsOutcome(c', tso, streams(l.table.flows[id].value.owner), fair)
    ensures Told(Handled(l, id, c', lastActive), tso, streams, fair)
  {
    var f := l.table.flows[id].value;
    var f' := f.(lastActive := lastActive, tcp := Some(c'));
    var polled := c'.io.polls > f.tcp.value.io.polls;
    SettleOnlyHere(l, id, f', polled);
    SettleSlot(l, id, f', polled, tso, streams, fair);
    OnlyHereTold(l, Settle(l, id, f', polled), id, tso, streams, fair);
  }

  /** A step of the single-flow machine on the connection of one slot. */
  lemma StepTold(l: Loop, id: nat, e: Event, c': Conn, lastActive: nat, tso: bool, streams: Streams, fair: bool)
    requires Safe(l) && Told(l, tso, streams, fair) && ConnOf(l, id).Some?
    requires var c := ConnOf(l, id).value;
             && Inv(c) && (c.gone.None? ==> c' == Step(c, tso, e))
             && (fair && Live(l.table, id) ==>
                    SynSafe(c, e) && GuestSends(c, e, streams(l.table.flows[id].value.owner)))
    ensures Told(Handled(l, id, c', lastActive), tso, streams, fair)
  {
    ToldWeakens(l, id, tso, streams, fair);
    if Live(l.table, id) {
      OutcomeGrows(ConnOf(l, id).value, tso, e, streams(l.table.flows[id].value.owner), fair);
    }
    HandledTold(l, id, c', lastActive, tso, streams, fair);
  }

  lemma TouchTold(l: Loop, id: nat, now: nat, tso: bool, streams: Streams, fair: bool)
    requires Told(l, tso, streams, fair) && Occupied(l.table, id)
    ensures Told(PutFlow(l, id, l.table.flows[id].value.(lastActive := now)), tso, streams, fair)
  {
    ToldWeakens(l, id, tso, streams, fair);
    OnlyHereTold(l, PutFlow(l, id, l.table.flows[id].value.(lastActive := now)), id, tso, streams, fair);
  }

  lemma PushTold(l: Loop, id: nat, tso: bool, streams: Streams, fair: bool)
    requires Told(l, tso, streams, fair) && Occupied(l.table, id) && l.nextOp !in l.ops
    ensures Told(PushOp(l, id), tso, streams, fair)
  {
  }

  lemma AddTold(l: Loop, f: FlowTable.Flow, tso: bool, streams: Streams, fair: bool)
    requires Safe(l) && l.pool != [] && Told(l, tso, streams, fair) && SlotTold(f, tso, streams, fair)
    ensures Told(AddFlow(l, f), tso, streams, fair) && Occupied(AddFlow(l, f).table, NextSlot(l.table))
  {
    AddOnlyHere(l, f);
    InsertFree(l.table, f);
    ToldWeakens(l, NextSlot(l.table), tso, streams, fair);
    OnlyHereTold(l, AddFlow(l, f), NextSlot(l.table), tso, streams, fair);
  }

  // ---------------------------------------------------------------------------------------------
  // Events
  // ---------------------------------------------------------------------------------------------

  lemma OpenTold(
    l: Loop, key: Key, kind: Kind, tcp: Option<Conn>, now: nat, pushOk: bool, tso: bool, streams: Streams, fair: bool)
    requires Safe(l) && Told(l, tso, streams, fair)
    requires tcp.Some? ==> tcp.value.gone.None? && IsOutcome(tcp.value, tso, streams(l.nextOwner), fair)
    ensures Told(OpenFlow(l, key, kind, tcp, now, pushOk), tso, streams, fair)
  {
    if l.pool == [] {
      var victim := LruEvictable(l.table.flows);
      if victim.Some? { RemoveTold(l, victim.value, tso, streams, fair); }
    } else {
      var f := NewFlow(l, key, kind, tcp, now);
      AddTold(l, f, tso, streams, fair);
      if pushOk {
        PushTold(AddFlow(l, f), NextSlot(l.table), tso, streams, fair);
      } else {
        RemoveTold(AddFlow(l, f), NextSlot(l.table), tso, streams, fair);
      }
    }
  }

  /** What is asked of a guest segment for the flow in slot `id`. */
  ghost predicate FairSegment(l: Loop, id: nat, e: Event, streams: Streams) {
    Live(l.table, id) && ConnOf(l, id).Some? ==>
      SynSafe(ConnOf(l, id).value, e) && GuestSends(ConnOf(l, id).value, e, streams(l.table.flows[id].value.owner))
  }

  lemma SegmentToTold(
    l: Loop, id: nat, h: Header, payload: seq<byte>, accept: nat, recv: Recv, now: nat, tso: bool, streams: Streams,
    fair: bool)
    requires Safe(l) && Told(l, tso, streams, fair) && Occupied(l.table, id)
    requires fair ==> FairSegment(l, id, FromGuest(h, payload, accept, recv, now), streams)
    ensures Told(SegmentTo(l, id, h, payload, accept, recv, tso, now), tso, streams, fair)
  {
    if ConnOf(l, id).None? {
      TouchTold(l, id, now, tso, streams, fair);
    } else {
      var c, e := ConnOf(l, id).value, FromGuest(h, payload, accept, recv, now);
      StepTold(l, id, e, HandleGuest(c, h, payload, accept, recv, tso, now), now, tso, streams, fair);
    }
  }

  lemma PollDoneTold(
    l: Loop, id: nat, outcome: Outcome, recv: Recv, now: nat, tso: bool, streams: Streams, fair: bool)
    requires Safe(l) && Told(l, tso, streams, fair) && ConnOf(l, id).Some?
    ensures Told(PollDone(l, id, outcome, recv, tso, now), tso, streams, fair)
  {
    var c := ConnOf(l, id).value;
    match outcome
    case Ready(pollErr, pollHup, sockErr) =>
      StepTold(l, id, SocketReady(pollErr, pollHup, sockErr, recv, now),
               HandleReady(c, pollErr, pollHup, sockErr, recv, tso, now), now, tso, streams, fair);
    case _ => StepTold(l, id, PollFailed, Reset(c), l.table.flows[id].value.lastActive, tso, streams, fair);
  }

  lemma CompletionTold(
    l: Loop, id: nat, outcome: Outcome, recv: Recv, now: nat, tso: bool, streams: Streams, fair: bool)
    requires Safe(l) && Told(l, tso, streams, fair)
    ensures Told(HandleCompletion(l, id, outcome, recv, tso, now), tso, streams, fair)
  {
    if Occupied(l.table, id) {
      var f := l.table.flows[id].value;
      if f.closing || outcome.Cancelled? {
        RemoveTold(l, id, tso, streams, fair);
      } else if f.tcp.Some? {
        PollDoneTold(l, id, outcome, recv, now, tso, streams, fair);
      } else {
        var answered := outcome.Ready? || (f.kind.Udp? && outcome.Error? && outcome.reported);
        var lastActive := if answered then now else f.lastActive;
        TouchTold(l, id, lastActive, tso, streams, fair);
        PushTold(PutFlow(l, id, f.(lastActive := lastActive)), id, tso, streams, fair);
      }
    }
  }

  lemma TickTold(l: Loop, id: nat, recv: Recv, now: nat, tso: bool, streams: Streams, fair: bool)
    requires Safe(l) && Told(l, tso, streams, fair)
    ensures Told(Tick(l, id, recv, tso, now), tso, streams, fair)
  {
    if ConnOf(l, id).Some? {
      StepTold(l, id, TimerTick(recv, now), HandleTimer(ConnOf(l, id).value, recv, tso, now),
               l.table.flows[id].value.lastActive, tso, streams, fair);
    }
  }

  lemma {:induction false} TickAllTold(
    l: Loop, ids: seq<nat>, recvs: seq<Recv>, now: nat, tso: bool, streams: Streams, fair: bool)
    requires Safe(l) && Told(l, tso, streams, fair)
    ensures Told(TickAll(l, ids, recvs, tso, now), tso, streams, fair)
    decreases |ids|
  {
    if ids != [] {
      var recv := if recvs == [] then Again else recvs[0];
      TickSafe(l, ids[0], recv, tso, now);
      TickTold(l, ids[0], recv, now, tso, streams, fair);
      TickAllTold(Tick(l, ids[0], recv, tso, now), ids[1..], if recvs == [] then [] else recvs[1..], now, tso, streams,
                  fair);
    }
  }

  lemma {:induction false} RemoveAllTold(l: Loop, ids: seq<nat>, tso: bool, streams: Streams, fair: bool)
    requires Safe(l) && Told(l, tso, streams, fair)
    ensures Told(RemoveAll(l, ids), tso, streams, fair)
    decreases |ids|
  {
    if ids != [] {
      RemoveFlowSafe(l, ids[0]);
      RemoveTold(l, ids[0], tso, streams, fair);
      RemoveAllTold(RemoveFlow(l, ids[0]), ids[1..], tso, streams, fair);
    }
  }

  lemma TimerTold(l: Loop, recvs: seq<Recv>, now: nat, tso: bool, streams: Streams, fair: bool)
    requires Safe(l) && Told(l, tso, streams, fair)
    ensures Told(HandleTimerEvent(l, recvs, tso, now), tso, streams, fair)
  {
    var l1 := if now < RTO then l else TickAll(l, TcpTimerDue(l.table.flows, now - RTO), recvs, tso, now);
    if now >= RTO { TickAllTold(l, TcpTimerDue(l.table.flows, now - RTO), recvs, now, tso, streams, fair); }
    if now >= FLOW_EXPIRY { RemoveAllTold(l1, Expired(l1.table.flows, now - FLOW_EXPIRY), tso, streams, fair); }
  }

  lemma TakesTold(l: Loop, inTime: bool, tso: bool, streams: Streams, fair: bool)
    requires Safe(l) && Told(l, tso, streams, fair)
    ensures Told(KernelTakes(l, inTime), tso, streams, fair)
  {
    assert KernelTakes(l, inTime).table == l.table;
  }

  /** What is asked of the guest at each event of the loop. */
  ghost predicate FairEvent(l: Loop, e: LoopEvent, streams: Streams) {
    e.Segment? && e.key in l.table.byKey ==>
      FairSegment(l, l.table.byKey[e.key], FromGuest(e.header, e.payload, e.accept, e.recv, e.now), streams)
  }

  lemma SegmentTold(l: Loop, e: LoopEvent, tso: bool, streams: Streams, fair: bool)
    requires Safe(l) && e.Segment? && Told(l, tso, streams, fair) && (fair ==> FairEvent(l, e, streams))
    ensures Told(HandleSegment(l, e.key, e.header, e.mss, e.wscale, e.payload, e.accept, e.recv, tso, e.allowed,
                               e.pushOk, e.now), tso, streams, fair)
  {
    if e.key in l.table.byKey {
      SegmentToTold(l, l.table.byKey[e.key], e.header, e.payload, e.accept, e.recv, e.now, tso, streams, fair);
    } else {
      var c := Open(e.header.seqno, e.header.window, e.mss, e.wscale, e.now);
      OpenedIsOutcome(e.header.seqno, e.header.window, e.mss, e.wscale, e.now, tso, streams(l.nextOwner), fair);
      OpenTold(l, e.key, TcpKind, Some(c), e.now, e.pushOk, tso, streams, fair);
    }
  }

  lemma DatagramTold(
    l: Loop, key: Key, kind: Kind, allowed: bool, pushOk: bool, now: nat, tso: bool, streams: Streams, fair: bool)
    requires Safe(l) && Told(l, tso, streams, fair)
    ensures Told(HandleDatagram(l, key, kind, allowed, pushOk, now), tso, streams, fair)
  {
    if key in l.table.byKey {
      TouchTold(l, l.table.byKey[key], now, tso, streams, fair);
    } else {
      OpenTold(l, key, kind, None, now, pushOk, tso, streams, fair);
    }
  }

  lemma EventTold(l: Loop, e: LoopEvent, tso: bool, streams: Streams, fair: bool)
    requires Safe(l) && Told(l, tso, streams, fair) && (fair ==> FairEvent(l, e, streams))
    ensures Told(StepLoop(l, tso, e), tso, streams, fair)
  {
    if Possible(l, e) {
      match e
      case Takes(inTime) => TakesTold(l, inTime, tso, streams, fair);
      case Completes(op, outcome, recv, now) =>
        DropOpSafe(l, op);
        assert Told(DropOp(l, op), tso, streams, fair);
        CompletionTold(DropOp(l, op), l.ops[op].slot, outcome, recv, now, tso, streams, fair);
      case Segment(_, _, _, _, _, _, _, _, _, _) => SegmentTold(l, e, tso, streams, fair);
      case Datagram(key, kind, allowed, pushOk, now) =>
        DatagramTold(l, key, kind, allowed, pushOk, now, tso, streams, fair);
      case Timer(recvs, now) => TimerTold(l, recvs, now, tso, streams, fair);
    }
  }

  // ---------------------------------------------------------------------------------------------
  // Runs
  // ---------------------------------------------------------------------------------------------

  ghost predicate FairAt(l: Loop, tso: bool, events: seq<LoopEvent>, streams: Streams, i: nat)
    requires Safe(l) && i < |events|
  {
    FairEvent(RunLoop(l, tso, events[..i]), events[i], streams)
  }

  ghost predicate FairRun(l: Loop, tso: bool, events: seq<LoopEvent>, streams: Streams)
    requires Safe(l)
  {
    forall i :: 0 <= i < |events| ==> FairAt(l, tso, events, streams, i)
  }

  lemma FairShorter(l: Loop, tso: bool, events: seq<LoopEvent>, streams: Streams, n: nat, i: nat)
    requires Safe(l) && i < n <= |events| && FairAt(l, tso, events, streams, i)
    ensures FairAt(l, tso, events[..n], streams, i)
  {
    assert events[..n][..i] == events[..i];
  }

  lemma LastTold(l: Loop, tso: bool, events: seq<LoopEvent>, streams: Streams, fair: bool, n: nat)
    requires Safe(l) && n + 1 == |events| && Told(RunLoop(l, tso, events[..n]), tso, streams, fair)
    requires fair ==> FairAt(l, tso, events, streams, n)
    ensures Told(RunLoop(l, tso, events), tso, streams, fair)
  {
    EventTold(RunLoop(l, tso, events[..n]), events[n], tso, streams, fair);
  }

  lemma {:induction false} RunTold(l: Loop, tso: bool, events: seq<LoopEvent>, streams: Streams, fair: bool)
    requires Safe(l) && Told(l, tso, streams, fair) && (fair ==> FairRun(l, tso, events, streams))
    ensures Told(RunLoop(l, tso, events), tso, streams, fair)
    decreases |events|
  {
    if events != [] {
      var n := |events| - 1;
      if fair {
        forall i | 0 <= i < n ensures FairAt(l, tso, events[..n], streams, i) {
          FairShorter(l, tso, events, streams, n, i);
        }
      }
      RunTold(l, tso, events[..n], streams, fair);
      LastTold(l, tso, events, streams, fair, n);
    }
  }

  /** Every live connection is, in every state of every run of the loop, the outcome of a single-flow run. */
  ghost predicate AreOutcomes(l: Loop, tso: bool) {
    forall id: nat :: Live(l.table, id) && ConnOf(l, id).Some? ==> IsOutcome(ConnOf(l, id).value, tso, [], false)
  }

  lemma ConnectionsAreRuns(buffers: nat, tso: bool, events: seq<LoopEvent>)
    requires 0 < buffers < TWO32
    ensures AreOutcomes(RunLoop(Start(buffers), tso, events), tso)
  {
    RunTold(Start(buffers), tso, events, _ => [], false);
  }

  lemma OutcomeIsFaithful(c: Conn, tso: bool, stream: seq<byte>)
    requires IsOutcome(c, tso, stream, true)
    ensures FaithfulTap(c.io.tap, c.io.fromHost) && UploadFaithful(c, stream)
  {
    var h: History :| EndOf(h, tso) == c && FairHistory(h, tso, stream);
    SafeSynsSuffice(h.seqno, h.window, h.mss, h.wscale, h.start, tso, h.events);
    UploadFidelity(Opening(h), tso, h.events, stream);
  }

  /** Both streams of every live flow are faithful. */
  ghost predicate AllFaithful(l: Loop, streams: Streams) {
    forall id: nat :: Live(l.table, id) && ConnOf(l, id).Some? ==>
      var c := ConnOf(l, id).value;
      FaithfulTap(c.io.tap, c.io.fromHost) && UploadFaithful(c, streams(l.table.flows[id].value.owner))
  }

  /**
    Fidelity of the whole loop.  Over every run of the event loop in which the guest's SYNs are safe and its
    segments are slices of one stream per flow, with any number of flows coming and going and slots and
    buffers reused, each live flow carries its own host's and its own guest's stream.
   */
  lemma LoopFidelity(buffers: nat, tso: bool, events: seq<LoopEvent>, streams: Streams)
    requires 0 < buffers < TWO32 && FairRun(Start(buffers), tso, events, streams)
    ensures AllFaithful(RunLoop(Start(buffers), tso, events), streams)
  {
    RunTold(Start(buffers), tso, events, streams, true);
    ToldIsFaithful(RunLoop(Start(buffers), tso, events), tso, streams);
  }

  lemma ToldIsFaithful(l: Loop, tso: bool, streams: Streams)
    requires Told(l, tso, streams, true)
    ensures AllFaithful(l, streams)
  {
    forall id: nat | Live(l.table, id) && ConnOf(l, id).Some?
      ensures var c := ConnOf(l, id).value;
              FaithfulTap(c.io.tap, c.io.fromHost) && UploadFaithful(c, streams(l.table.flows[id].value.owner))
    {
      OutcomeIsFaithful(ConnOf(l, id).value, tso, streams(l.table.flows[id].value.owner));
    }
  }
}
