/**
  Flows of the loop over time.  As long as a flow stays in its slot, its connection goes on by steps of the
  single-flow machine, and the loop's timer never leaves a stalled one alone.
 */
module LoopLiveness {
  import opened Words
  import opened TcpModel
  import opened TcpInvariant
  import opened TcpLiveness
  import opened FlowTable
  import opened EventLoop
  import opened Dispatch
  import opened Wakeups
  import opened LoopSlots

  // ---------------------------------------------------------------------------------------------
  // A connection that is over is closing
  // ---------------------------------------------------------------------------------------------

  lemma SteppedLively(f: FlowTable.Flow, tso: bool, e: Event, lastActive: nat)
    requires f.tcp.Some? && Inv(f.tcp.value)
    ensures SlotLively(Stepped(f, tso, e, lastActive))
  {
    WithConnLively(f, Step(f.tcp.value, tso, e), lastActive);
  }

  lemma CompletedLively(f: FlowTable.Flow, outcome: Outcome, recv: Recv, tso: bool, now: nat)
    requires ConnOk(f) && SlotLively(Some(f))
    ensures SlotLively(Completed(f, outcome, recv, tso, now))
  {
    if f.tcp.Some? {
      if outcome.Ready? {
        SteppedLively(f, tso, SocketReady(outcome.pollErr, outcome.pollHup, outcome.sockErr, recv, now), now);
      } else {
        SteppedLively(f, tso, PollFailed, f.lastActive);
      }
    }
  }

  lemma OpeningLively(l: Loop, id: nat, key: Key, kind: Kind, tcp: Option<Conn>, now: nat, pushOk: bool)
    requires SlotLively(SlotOf(l, id)) && (tcp.Some? ==> tcp.value.gone.None?)
    ensures SlotLively(AfterOpening(l, id, key, kind, tcp, now, pushOk))
  {
  }

  lemma AfterLively(l: Loop, tso: bool, e: LoopEvent, id: nat)
    requires Safe(l) && Lively(l)
    ensures SlotLively(SlotAfter(l, tso, e, id))
  {
    LivelySlot(l, id);
    var slot := SlotOf(l, id);
    match e
    case Takes(_) =>
    case Completes(op, outcome, recv, now) =>
      if Possible(l, e) && l.ops[op].slot == id { CompletedLively(slot.value, outcome, recv, tso, now); }
    case Segment(key, h, mss, wscale, payload, accept, recv, allowed, pushOk, now) =>
      if key in l.table.byKey && l.table.byKey[key] == id && slot.value.tcp.Some? {
        SteppedLively(slot.value, tso, FromGuest(h, payload, accept, recv, now), now);
      } else if key !in l.table.byKey {
        OpeningLively(l, id, key, TcpKind, Some(Open(h.seqno, h.window, mss, wscale, now)), now, pushOk);
      }
    case Datagram(key, kind, allowed, pushOk, now) => OpeningLively(l, id, key, kind, None, now, pushOk);
    case Timer(recvs, now) => TickedLively(slot, ReadFor(l, id, recvs, now), tso, now);
  }

  lemma StepLively(l: Loop, tso: bool, e: LoopEvent)
    requires Safe(l) && Lively(l)
    ensures Lively(StepLoop(l, tso, e))
  {
    forall id: nat ensures SlotLively(SlotOf(StepLoop(l, tso, e), id)) {
      StepSlots(l, tso, e, id);
      AfterLively(l, tso, e, id);
    }
    SlotsLively(StepLoop(l, tso, e));
  }

  lemma {:induction false} RunLively(l: Loop, tso: bool, events: seq<LoopEvent>)
    requires Safe(l) && Lively(l)
    ensures Lively(RunLoop(l, tso, events))
    decreases |events|
  {
    if events != [] {
      var n := |events| - 1;
      RunLively(l, tso, events[..n]);
      StepLively(RunLoop(l, tso, events[..n]), tso, events[n]);
    }
  }

  // ---------------------------------------------------------------------------------------------
  // Numbers of flows
  // ---------------------------------------------------------------------------------------------

  lemma OpeningCounts(l: Loop, key: Key, kind: Kind, tcp: Option<Conn>, now: nat, pushOk: bool)
    requires Safe(l)
    ensures OpenFlow(l, key, kind, tcp, now, pushOk).nextOwner >= l.nextOwner
  {
  }

  lemma HandledCounts(l: Loop, id: nat, c': Conn, lastActive: nat)
    requires ConnOf(l, id).Some?
    ensures Handled(l, id, c', lastActive).nextOwner == l.nextOwner
  {
  }

  lemma CompletionCounts(l: Loop, id: nat, outcome: Outcome, recv: Recv, tso: bool, now: nat)
    requires Safe(l)
    ensures HandleCompletion(l, id, outcome, recv, tso, now).nextOwner == l.nextOwner
  {
    if Occupied(l.table, id) && l.table.flows[id].value.tcp.Some? {
      var c := ConnOf(l, id).value;
      if outcome.Ready? {
        HandledCounts(l, id, HandleReady(c, outcome.pollErr, outcome.pollHup, outcome.sockErr, recv, tso, now), now);
      } else {
        HandledCounts(l, id, Reset(c), l.table.flows[id].value.lastActive);
      }
    }
  }

  lemma SegmentCounts(
    l: Loop, id: nat, h: Header, payload: seq<byte>, accept: nat, recv: Recv, tso: bool, now: nat)
    requires Safe(l) && Occupied(l.table, id)
    ensures SegmentTo(l, id, h, payload, accept, recv, tso, now).nextOwner == l.nextOwner
  {
    if ConnOf(l, id).Some? {
      HandledCounts(l, id, HandleGuest(ConnOf(l, id).value, h, payload, accept, recv, tso, now), now);
    }
  }

  lemma {:induction false} TicksCount(l: Loop, ids: seq<nat>, recvs: seq<Recv>, tso: bool, now: nat)
    requires Safe(l)
    ensures TickAll(l, ids, recvs, tso, now).nextOwner == l.nextOwner
    decreases |ids|
  {
    if ids != [] {
      var recv := if recvs == [] then Again else recvs[0];
      TickSafe(l, ids[0], recv, tso, now);
      if ConnOf(l, ids[0]).Some? {
        HandledCounts(l, ids[0], HandleTimer(ConnOf(l, ids[0]).value, recv, tso, now),
                      l.table.flows[ids[0]].value.lastActive);
      }
      TicksCount(Tick(l, ids[0], recv, tso, now), ids[1..], if recvs == [] then [] else recvs[1..], tso, now);
    }
  }

  lemma {:induction false} RemovalsCount(l: Loop, ids: seq<nat>)
    requires Safe(l)
    ensures RemoveAll(l, ids).nextOwner == l.nextOwner
    decreases |ids|
  {
    if ids != [] {
      RemoveFlowSafe(l, ids[0]);
      RemovalsCount(RemoveFlow(l, ids[0]), ids[1..]);
    }
  }

  lemma TimerCounts(l: Loop, recvs: seq<Recv>, tso: bool, now: nat)
    requires Safe(l)
    ensures HandleTimerEvent(l, recvs, tso, now).nextOwner == l.nextOwner
  {
    var l1 := if now < RTO then l else TickAll(l, TcpTimerDue(l.table.flows, now - RTO), recvs, tso, now);
    if now >= RTO { TicksCount(l, TcpTimerDue(l.table.flows, now - RTO), recvs, tso, now); }
    if now >= FLOW_EXPIRY { RemovalsCount(l1, Expired(l1.table.flows, now - FLOW_EXPIRY)); }
  }

  /** Flow numbers are never given out twice. */
  lemma StepCounts(l: Loop, tso: bool, e: LoopEvent)
    requires Safe(l)
    ensures StepLoop(l, tso, e).nextOwner >= l.nextOwner
  {
    if Possible(l, e) {
      match e
      case Takes(_) =>
      case Completes(op, outcome, recv, now) =>
        DropOpSafe(l, op);
        CompletionCounts(DropOp(l, op), l.ops[op].slot, outcome, recv, tso, now);
      case Segment(key, h, mss, wscale, payload, accept, recv, allowed, pushOk, now) =>
        if key in l.table.byKey {
          SegmentCounts(l, l.table.byKey[key], h, payload, accept, recv, tso, now);
        } else {
          OpeningCounts(l, key, TcpKind, Some(Open(h.seqno, h.window, mss, wscale, now)), now, pushOk);
        }
      case Datagram(key, kind, allowed, pushOk, now) => OpeningCounts(l, key, kind, None, now, pushOk);
      case Timer(recvs, now) => TimerCounts(l, recvs, tso, now);
    }
  }

  // ---------------------------------------------------------------------------------------------
  // A flow that stays
  // ---------------------------------------------------------------------------------------------

  /** Flow number `owner` is live in the slot, with a connection. */
  predicate Hosts(slot: Slot, owner: nat) {
    slot.Some? && !slot.value.closing && slot.value.owner == owner && slot.value.tcp.Some?
  }

  /** The flow in the slot is the same one, and its connection did at most one step. */
  ghost predicate Follows(before: Slot, after: Slot, owner: nat, tso: bool) {
    && Hosts(before, owner) && Hosts(after, owner) && Inv(before.value.tcp.value)
    && (after.value.tcp == before.value.tcp
        || exists e: Event :: after.value.tcp.value == Step(before.value.tcp.value, tso, e))
  }

  lemma SteppedFollows(f: FlowTable.Flow, tso: bool, e: Event, lastActive: nat, owner: nat)
    requires f.tcp.Some? && Inv(f.tcp.value) && !f.closing && Hosts(Stepped(f, tso, e, lastActive), owner)
    ensures Follows(Some(f), Stepped(f, tso, e, lastActive), owner, tso)
  {
    assert Stepped(f, tso, e, lastActive).value.tcp.value == Step(f.tcp.value, tso, e);
  }

  lemma CompletedFollows(f: FlowTable.Flow, outcome: Outcome, recv: Recv, tso: bool, now: nat, owner: nat)
    requires ConnOk(f) && Hosts(Completed(f, outcome, recv, tso, now), owner)
    ensures Follows(Some(f), Completed(f, outcome, recv, tso, now), owner, tso)
  {
    if outcome.Ready? {
      SteppedFollows(f, tso, SocketReady(outcome.pollErr, outcome.pollHup, outcome.sockErr, recv, now), now, owner);
    } else {
      SteppedFollows(f, tso, PollFailed, f.lastActive, owner);
    }
  }

  lemma OpeningFollows(
    l: Loop, id: nat, key: Key, kind: Kind, tcp: Option<Conn>, now: nat, pushOk: bool, owner: nat, tso: bool)
    requires SlotOf(l, id).Some? ==> ConnOk(SlotOf(l, id).value)
    requires owner < l.nextOwner && Hosts(AfterOpening(l, id, key, kind, tcp, now, pushOk), owner)
    ensures Follows(SlotOf(l, id), AfterOpening(l, id, key, kind, tcp, now, pushOk), owner, tso)
  {
  }

  lemma TimerFollows(slot: Slot, recv: Recv, tso: bool, now: nat, owner: nat)
    requires (slot.Some? ==> ConnOk(slot.value)) && Hosts(Reclaimed(Ticked(slot, recv, tso, now), now), owner)
    ensures Follows(slot, Reclaimed(Ticked(slot, recv, tso, now), now), owner, tso)
    ensures Reclaimed(Ticked(slot, recv, tso, now), now).value.tcp.value
            == Step(slot.value.tcp.value, tso, TimerTick(recv, now))
  {
    var ticked := Ticked(slot, recv, tso, now);
    assert Reclaimed(ticked, now) == ticked;
    SteppedFollows(slot.value, tso, TimerTick(recv, now), slot.value.lastActive, owner);
  }

  lemma AfterFollows(l: Loop, tso: bool, e: LoopEvent, id: nat, owner: nat)
    requires Safe(l) && Lively(l) && owner < l.nextOwner && Hosts(SlotAfter(l, tso, e, id), owner)
    ensures Follows(SlotOf(l, id), SlotAfter(l, tso, e, id), owner, tso)
  {
    LivelySlot(l, id);
    var slot := SlotOf(l, id);
    match e
    case Takes(_) =>
    case Completes(op, outcome, recv, now) =>
      if Possible(l, e) && l.ops[op].slot == id { CompletedFollows(slot.value, outcome, recv, tso, now, owner); }
    case Segment(key, h, mss, wscale, payload, accept, recv, allowed, pushOk, now) =>
      if key in l.table.byKey {
        if l.table.byKey[key] == id && slot.value.tcp.Some? {
          SteppedFollows(slot.value, tso, FromGuest(h, payload, accept, recv, now), now, owner);
        }
      } else if h.flags.syn && !h.flags.ack && !h.flags.rst && allowed {
        OpeningFollows(l, id, key, TcpKind, Some(Open(h.seqno, h.window, mss, wscale, now)), now, pushOk, owner, tso);
      }
    case Datagram(key, kind, allowed, pushOk, now) =>
      if key !in l.table.byKey && allowed && !kind.TcpKind? {
        OpeningFollows(l, id, key, kind, None, now, pushOk, owner, tso);
      }
    case Timer(recvs, now) => TimerFollows(slot, ReadFor(l, id, recvs, now), tso, now, owner);
  }

  /** The connection in the slot is where a run of the single-flow machine leads from `c`. */
  ghost predicate Reached(c: Conn, tso: bool, slot: Slot, owner: nat) {
    Inv(c) && Hosts(slot, owner) && exists events: seq<Event> :: Run(c, tso, events) == slot.value.tcp.value
  }

  lemma ReachedFollows(c: Conn, tso: bool, before: Slot, after: Slot, owner: nat)
    requires Reached(c, tso, before, owner) && Follows(before, after, owner, tso)
    ensures Reached(c, tso, after, owner)
  {
    var events: seq<Event> :| Run(c, tso, events) == before.value.tcp.value;
    if after.value.tcp == before.value.tcp {
      assert Run(c, tso, events) == after.value.tcp.value;
    } else {
      var e: Event :| after.value.tcp.value == Step(before.value.tcp.value, tso, e);
      assert (events + [e])[..|events|] == events;
      assert Run(c, tso, events + [e]) == after.value.tcp.value;
    }
  }

  /** A flow that is still in its slot after an event was there before it, and did at most one step. */
  lemma StepFollows(l: Loop, tso: bool, e: LoopEvent, id: nat, owner: nat)
    requires Safe(l) && Lively(l) && owner < l.nextOwner && Hosts(SlotOf(StepLoop(l, tso, e), id), owner)
    ensures Follows(SlotOf(l, id), SlotOf(StepLoop(l, tso, e), id), owner, tso)
  {
    StepSlots(l, tso, e, id);
    AfterFollows(l, tso, e, id, owner);
  }

  lemma {:induction false} RunCounts(l: Loop, tso: bool, events: seq<LoopEvent>)
    requires Safe(l)
    ensures RunLoop(l, tso, events).nextOwner >= l.nextOwner
    decreases |events|
  {
    if events != [] {
      var n := |events| - 1;
      RunCounts(l, tso, events[..n]);
      StepCounts(RunLoop(l, tso, events[..n]), tso, events[n]);
    }
  }

  /**
    A flow that is still in its slot at the end of a run of the loop was there all along, and its connection is
    where a run of the single-flow machine leads from where it was.
   */
  lemma {:induction false} FlowGoesOn(l: Loop, tso: bool, events: seq<LoopEvent>, id: nat, owner: nat)
    requires Safe(l) && Lively(l) && owner < l.nextOwner && Hosts(SlotOf(RunLoop(l, tso, events), id), owner)
    ensures Hosts(SlotOf(l, id), owner)
    ensures Reached(SlotOf(l, id).value.tcp.value, tso, SlotOf(RunLoop(l, tso, events), id), owner)
    decreases |events|
  {
    if events == [] {
      LivelySlot(l, id);
      var c := SlotOf(l, id).value.tcp.value;
      assert Run(c, tso, []) == c;
    } else {
      var n := |events| - 1;
      var before := RunLoop(l, tso, events[..n]);
      RunLively(l, tso, events[..n]);
      RunCounts(l, tso, events[..n]);
      StepFollows(before, tso, events[n], id, owner);
      FlowGoesOn(l, tso, events[..n], id, owner);
      ReachedFollows(SlotOf(l, id).value.tcp.value, tso, SlotOf(before, id), SlotOf(RunLoop(l, tso, events), id),
                     owner);
    }
  }

  // ---------------------------------------------------------------------------------------------
  // The loop's timer
  // ---------------------------------------------------------------------------------------------

  /** A timer event is a tick of every flow that stays. */
  lemma TimerTicks(l: Loop, tso: bool, recvs: seq<Recv>, now: nat, id: nat, owner: nat) returns (recv: Recv)
    requires Safe(l) && Lively(l) && Hosts(SlotOf(StepLoop(l, tso, Timer(recvs, now)), id), owner)
    ensures Hosts(SlotOf(l, id), owner) && Inv(SlotOf(l, id).value.tcp.value)
    ensures SlotOf(StepLoop(l, tso, Timer(recvs, now)), id).value.tcp.value
            == Step(SlotOf(l, id).value.tcp.value, tso, TimerTick(recv, now))
  {
    recv := ReadFor(l, id, recvs, now);
    StepSlots(l, tso, Timer(recvs, now), id);
    LivelySlot(l, id);
    TimerFollows(SlotOf(l, id), recv, tso, now, owner);
  }

  /** After a timer event no live flow has been idle for too long. */
  lemma TimerReclaims(l: Loop, tso: bool, recvs: seq<Recv>, now: nat, id: nat)
    requires Safe(l) && Lively(l)
    ensures var slot := SlotOf(StepLoop(l, tso, Timer(recvs, now)), id);
            slot.Some? && !slot.value.closing ==> now <= slot.value.lastActive + FLOW_EXPIRY
  {
    StepSlots(l, tso, Timer(recvs, now), id);
    LivelySlot(l, id);
    ReclaimsIdle(Ticked(SlotOf(l, id), ReadFor(l, id, recvs, now), tso, now), now);
  }

  lemma ReclaimsIdle(slot: Slot, now: nat)
    ensures var left := Reclaimed(slot, now);
            left.Some? && !left.value.closing ==> now <= left.value.lastActive + FLOW_EXPIRY
  {
  }

  /** A connection that has nobody but the timer to wake it. */
  ghost predicate WaitsForTimer(c: Conn, now: nat) {
    Awake(c) && c.gone.None? && !c.t.pollArmed && !c.t.hostFin.Acked? && c.t.lastProgress + RTO < now
  }

  /**
    No stalled flow is left alone by the loop: of two timer events more than a timeout apart, whatever events
    come in between, the flow in a slot has put a segment on the tap by the end of the second, or it has
    left its slot.
   */
  lemma LoopSpeaks(
    l: Loop, tso: bool, id: nat, owner: nat, recvs1: seq<Recv>, now1: nat, between: seq<LoopEvent>, recvs2: seq<Recv>,
    now2: nat)
    requires Safe(l) && Lively(l) && Hosts(SlotOf(l, id), owner)
    requires WaitsForTimer(SlotOf(l, id).value.tcp.value, now1) && now1 + RTO < now2
    ensures var l1 := RunLoop(StepLoop(l, tso, Timer(recvs1, now1)), tso, between);
            var slot := SlotOf(StepLoop(l1, tso, Timer(recvs2, now2)), id);
            Hosts(slot, owner) ==> |slot.value.tcp.value.io.tap| > |SlotOf(l, id).value.tcp.value.io.tap|
  {
    var first := StepLoop(l, tso, Timer(recvs1, now1));
    var second := RunLoop(first, tso, between);
    var last := StepLoop(second, tso, Timer(recvs2, now2));
    StepLively(l, tso, Timer(recvs1, now1));
    RunLively(first, tso, between);
    StepLively(second, tso, Timer(recvs2, now2));
    if Hosts(SlotOf(last, id), owner) {
      StepCounts(l, tso, Timer(recvs1, now1));
      var recv2 := TimerTicks(second, tso, recvs2, now2, id, owner);
      FlowGoesOn(first, tso, between, id, owner);
      var recv1 := TimerTicks(l, tso, recvs1, now1, id, owner);
      var c := SlotOf(l, id).value.tcp.value;
      var evs: seq<Event> :| Run(SlotOf(first, id).value.tcp.value, tso, evs) == SlotOf(second, id).value.tcp.value;
      StalledFlowSpeaks(c, tso, recv1, now1, evs, recv2, now2);
      LivelySlot(last, id);
    }
  }

  /** Over every benign run of the loop, live connections have the wake-up source that this asks for. */
  lemma RunSpeaks(
    buffers: nat, tso: bool, events: seq<LoopEvent>, id: nat, owner: nat, recvs1: seq<Recv>, now1: nat,
    between: seq<LoopEvent>, recvs2: seq<Recv>, now2: nat)
    requires 0 < buffers < TWO32 && BenignRun(Start(buffers), tso, events)
    requires Hosts(SlotOf(RunLoop(Start(buffers), tso, events), id), owner) && now1 + RTO < now2
    requires var c := SlotOf(RunLoop(Start(buffers), tso, events), id).value.tcp.value;
             !c.t.pollArmed && !c.t.hostFin.Acked? && c.t.lastProgress + RTO < now1
    ensures var l := RunLoop(Start(buffers), tso, events);
            var l1 := RunLoop(StepLoop(l, tso, Timer(recvs1, now1)), tso, between);
            var slot := SlotOf(StepLoop(l1, tso, Timer(recvs2, now2)), id);
            Hosts(slot, owner) ==> |slot.value.tcp.value.io.tap| > |SlotOf(l, id).value.tcp.value.io.tap|
  {
    var l := RunLoop(Start(buffers), tso, events);
    RunExact(Start(buffers), tso, events);
    RunLively(Start(buffers), tso, events);
    ExactGives(l, id);
    LoopSpeaks(l, tso, id, owner, recvs1, now1, between, recvs2, now2);
  }
}
