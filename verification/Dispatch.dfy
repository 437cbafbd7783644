/** The event loop's handlers as they act on slots, buffers and operations, and what holds over whole runs. */
module Dispatch {
  import opened Words
  import opened TcpModel
  import opened TcpInvariant
  import opened TcpPolls
  import opened FlowTable
  import opened EventLoop

  type Slots = seq<Option<FlowTable.Flow>>

  // ---------------------------------------------------------------------------------------------
  // Queries
  // ---------------------------------------------------------------------------------------------

  predicate Evictable(flows: Slots, id: nat) {
    id < |flows| && flows[id].Some? && !flows[id].value.closing && !flows[id].value.kind.TcpKind?
  }

  /** Among the live UDP and ping flows, the one idle for longest; the first one among equals. */
  function LruEvictable(flows: Slots): (r: Option<nat>)
    ensures r.None? <==> forall id: nat :: !Evictable(flows, id)
    ensures r.Some? ==>
              && Evictable(flows, r.value)
              && forall id: nat :: Evictable(flows, id) ==>
                   && flows[r.value].value.lastActive <= flows[id].value.lastActive
                   && (id < r.value ==> flows[r.value].value.lastActive < flows[id].value.lastActive)
  {
    if flows == [] then None
    else
      var n := |flows| - 1;
      var best := LruEvictable(flows[..n]);
      assert forall id: nat :: id < n ==> (Evictable(flows, id) <==> Evictable(flows[..n], id));
      if Evictable(flows, n) && (best.None? || flows[n].value.lastActive < flows[best.value].value.lastActive)
      then Some(n) else best
  }

  /** The slots whose flow satisfies `p`, in ascending order. */
  function Select(flows: Slots, p: FlowTable.Flow -> bool): (ids: seq<nat>)
    ensures forall id: nat :: id in ids <==> id < |flows| && flows[id].Some? && p(flows[id].value)
    ensures forall i, j :: 0 <= i < j < |ids| ==> ids[i] < ids[j]
  {
    if flows == [] then []
    else
      var n := |flows| - 1;
      var before := Select(flows[..n], p);
      assert forall i :: 0 <= i < |before| ==> before[i] in before;
      before + if flows[n].Some? && p(flows[n].value) then [n] else []
  }

  function Expired(flows: Slots, cutoff: nat): seq<nat> {
    Select(flows, (f: FlowTable.Flow) => !f.closing && f.lastActive < cutoff)
  }

  function TcpTimerDue(flows: Slots, cutoff: nat): seq<nat> {
    Select(flows, (f: FlowTable.Flow) => !f.closing && f.tcp.Some? && TimerDue(f.tcp.value.t, cutoff))
  }

  // ---------------------------------------------------------------------------------------------
  // Handlers
  // ---------------------------------------------------------------------------------------------

  /** Put back a flow whose connection went through a handler, with the poll it submitted, if any. */
  function Settle(l: Loop, id: nat, f: FlowTable.Flow, polled: bool): Loop
    requires Occupied(l.table, id)
  {
    var l1 := PutFlow(l, id, f);
    var l2 := if polled then PushOp(l1, id) else l1;
    if f.tcp.Some? && f.tcp.value.gone.Some? then RemoveFlow(l2, id) else l2
  }

  /** The connection in slot `id`, if it holds a TCP flow. */
  function ConnOf(l: Loop, id: nat): Option<Conn> {
    if Occupied(l.table, id) then l.table.flows[id].value.tcp else None
  }

  /** A TCP flow whose connection went from its present state to `c'`. */
  function Handled(l: Loop, id: nat, c': Conn, lastActive: nat): Loop
    requires ConnOf(l, id).Some?
  {
    var f := l.table.flows[id].value;
    Settle(l, id, f.(lastActive := lastActive, tcp := Some(c')), c'.io.polls > f.tcp.value.io.polls)
  }

  /** With the pool dry, make room for the guest's next try. */
  function Evict(l: Loop): Loop {
    var victim := LruEvictable(l.table.flows);
    if victim.Some? then RemoveFlow(l, victim.value) else l
  }

  /** A new flow and its first operation; without room for that operation the flow is undone. */
  function OpenFlow(l: Loop, key: Key, kind: Kind, tcp: Option<Conn>, now: nat, pushOk: bool): Loop
    requires FreeOk(l.table)
  {
    if l.pool == [] then Evict(l)
    else
      var id := NextSlot(l.table);
      var l' := AddFlow(l, NewFlow(l, key, kind, tcp, now));
      if pushOk then PushOp(l', id) else FreeSlot(l', id)
  }

  /** What the outside does to the event loop. */
  datatype LoopEvent =
    | Takes(inTime: bool)
    | Completes(op: nat, outcome: Outcome, recv: Recv, now: nat)
    | Segment(key: Key, header: Header, mss: Option<u16>, wscale: Option<byte>, payload: seq<byte>, accept: nat,
              recv: Recv, allowed: bool, pushOk: bool, now: nat)
    | Datagram(key: Key, kind: Kind, allowed: bool, pushOk: bool, now: nat)
    | Timer(recvs: seq<Recv>, now: nat)

  /** A guest segment for the flow in slot `id`. */
  function SegmentTo(
    l: Loop, id: nat, h: Header, payload: seq<byte>, accept: nat, recv: Recv, tso: bool, now: nat): Loop
    requires Safe(l) && Occupied(l.table, id)
  {
    var f := l.table.flows[id].value;
    if f.tcp.None? then PutFlow(l, id, f.(lastActive := now))
    else Handled(l, id, HandleGuest(f.tcp.value, h, payload, accept, recv, tso, now), now)
  }

  /** A guest segment: to its flow, or a SYN that opens one. */
  function HandleSegment(
    l: Loop, key: Key, h: Header, mss: Option<u16>, wscale: Option<byte>, payload: seq<byte>, accept: nat, recv: Recv,
    tso: bool, allowed: bool, pushOk: bool, now: nat): Loop
    requires Safe(l)
  {
    if key in l.table.byKey then
      SegmentTo(l, l.table.byKey[key], h, payload, accept, recv, tso, now)
    else if h.flags.syn && !h.flags.ack && !h.flags.rst && allowed then
      OpenFlow(l, key, TcpKind, Some(Open(h.seqno, h.window, mss, wscale, now)), now, pushOk)
    else l
  }

  /** A UDP datagram or echo request from the guest. */
  function HandleDatagram(l: Loop, key: Key, kind: Kind, allowed: bool, pushOk: bool, now: nat): Loop
    requires Safe(l)
  {
    if key in l.table.byKey then
      var id := l.table.byKey[key];
      PutFlow(l, id, l.table.flows[id].value.(lastActive := now))
    else if allowed && !kind.TcpKind? then OpenFlow(l, key, kind, None, now, pushOk)
    else l
  }

  /** A completed operation of a live TCP flow. */
  function PollDone(l: Loop, id: nat, outcome: Outcome, recv: Recv, tso: bool, now: nat): Loop
    requires Safe(l) && ConnOf(l, id).Some?
  {
    var c := ConnOf(l, id).value;
    match outcome
    case Ready(pollErr, pollHup, sockErr) =>
      Handled(l, id, HandleReady(c, pollErr, pollHup, sockErr, recv, tso, now), now)
    case _ => Handled(l, id, Reset(c), l.table.flows[id].value.lastActive)
  }

  /** Dispatch of a completion, which names nothing but a slot. */
  function HandleCompletion(l: Loop, id: nat, outcome: Outcome, recv: Recv, tso: bool, now: nat): Loop
    requires Safe(l)
  {
    if !Occupied(l.table, id) then l
    else
      var f := l.table.flows[id].value;
      if f.closing || outcome.Cancelled? then FreeSlot(l, id)
      else if f.tcp.Some? then PollDone(l, id, outcome, recv, tso, now)
      else
        var answered := outcome.Ready? || (f.kind.Udp? && outcome.Error? && outcome.reported);
        PushOp(PutFlow(l, id, f.(lastActive := if answered then now else f.lastActive)), id)
  }

  /** Timer-driven maintenance of one flow. */
  function Tick(l: Loop, id: nat, recv: Recv, tso: bool, now: nat): Loop
    requires Safe(l)
  {
    if ConnOf(l, id).None? then l
    else Handled(l, id, HandleTimer(ConnOf(l, id).value, recv, tso, now), l.table.flows[id].value.lastActive)
  }

  // ---------------------------------------------------------------------------------------------
  // Safety
  // ---------------------------------------------------------------------------------------------

  lemma OpMeansPending(l: Loop, id: nat)
    requires Safe(l) && Occupied(l.table, id) && !Pending(l.table.flows[id].value)
    ensures NoOp(l.ops, id)
  {
  }

  /** What a handler's result must satisfy to be put back into its slot. */
  ghost predicate Settles(l: Loop, id: nat, f: FlowTable.Flow, polled: bool) {
    && Occupied(l.table, id) && ConnOk(f)
    && var g := l.table.flows[id].value;
       && f.key == g.key && f.closing == g.closing && f.owner == g.owner && f.buf == g.buf
       && (NoOp(l.ops, id) || Pending(f))
       && (polled ==> NoOp(l.ops, id) && Pending(f))
  }

  lemma SettleSafe(l: Loop, id: nat, f: FlowTable.Flow, polled: bool)
    requires Safe(l) && Settles(l, id, f, polled)
    ensures Safe(Settle(l, id, f, polled))
  {
    PutFlowSafe(l, id, f);
    var l1 := PutFlow(l, id, f);
    if polled { PushOpSafe(l1, id); }
    var l2 := if polled then PushOp(l1, id) else l1;
    RemoveFlowSafe(l2, id);
  }

  /** Arming at most once, and only while disarmed, is enough. */
  lemma HandledSafe(l: Loop, id: nat, c': Conn, lastActive: nat)
    requires Safe(l) && ConnOf(l, id).Some? && Inv(c') && Arms(ConnOf(l, id).value, c')
    ensures Safe(Handled(l, id, c', lastActive))
  {
    var f := l.table.flows[id].value;
    if !Pending(f) { OpMeansPending(l, id); }
    SettleSafe(l, id, f.(lastActive := lastActive, tcp := Some(c')), c'.io.polls > f.tcp.value.io.polls);
  }

  /** So is arming at most once when the flow's operation has just completed. */
  lemma IdleHandledSafe(l: Loop, id: nat, c': Conn, lastActive: nat)
    requires Safe(l) && ConnOf(l, id).Some? && NoOp(l.ops, id) && Inv(c')
    requires c'.io.polls > ConnOf(l, id).value.io.polls ==> c'.t.pollArmed
    ensures Safe(Handled(l, id, c', lastActive))
  {
    var f := l.table.flows[id].value;
    SettleSafe(l, id, f.(lastActive := lastActive, tcp := Some(c')), c'.io.polls > f.tcp.value.io.polls);
  }

  lemma SegmentToSafe(
    l: Loop, id: nat, h: Header, payload: seq<byte>, accept: nat, recv: Recv, tso: bool, now: nat)
    requires Safe(l) && Occupied(l.table, id)
    ensures Safe(SegmentTo(l, id, h, payload, accept, recv, tso, now))
  {
    var f := l.table.flows[id].value;
    if f.tcp.None? {
      PutFlowSafe(l, id, f.(lastActive := now));
    } else {
      GuestKeeps(f.tcp.value, h, payload, accept, recv, tso, now);
      GuestArms(f.tcp.value, h, payload, accept, recv, tso, now);
      HandledSafe(l, id, HandleGuest(f.tcp.value, h, payload, accept, recv, tso, now), now);
    }
  }

  lemma OpenFlowSafe(l: Loop, key: Key, kind: Kind, tcp: Option<Conn>, now: nat, pushOk: bool)
    requires Safe(l) && key !in l.table.byKey
    requires (kind.TcpKind? <==> tcp.Some?) && (tcp.Some? ==> Inv(tcp.value) && tcp.value.t.pollArmed)
    ensures Safe(OpenFlow(l, key, kind, tcp, now, pushOk))
  {
    if l.pool == [] {
      var victim := LruEvictable(l.table.flows);
      if victim.Some? { RemoveFlowSafe(l, victim.value); }
    } else {
      var f := NewFlow(l, key, kind, tcp, now);
      AddFlowSafe(l, f);
      var id, l' := NextSlot(l.table), AddFlow(l, f);
      if pushOk { PushOpSafe(l', id); } else { FreeSlotSafe(l', id); }
    }
  }

  lemma SegmentSafe(
    l: Loop, key: Key, h: Header, mss: Option<u16>, wscale: Option<byte>, payload: seq<byte>, accept: nat, recv: Recv,
    tso: bool, allowed: bool, pushOk: bool, now: nat)
    requires Safe(l)
    ensures Safe(HandleSegment(l, key, h, mss, wscale, payload, accept, recv, tso, allowed, pushOk, now))
  {
    if key in l.table.byKey {
      SegmentToSafe(l, l.table.byKey[key], h, payload, accept, recv, tso, now);
    } else if h.flags.syn && !h.flags.ack && !h.flags.rst && allowed {
      OpenFlowSafe(l, key, TcpKind, Some(Opened(h.seqno, h.window, mss, wscale, now)), now, pushOk);
    }
  }

  lemma DatagramSafe(l: Loop, key: Key, kind: Kind, allowed: bool, pushOk: bool, now: nat)
    requires Safe(l)
    ensures Safe(HandleDatagram(l, key, kind, allowed, pushOk, now))
  {
    if key in l.table.byKey {
      var id := l.table.byKey[key];
      PutFlowSafe(l, id, l.table.flows[id].value.(lastActive := now));
    } else if allowed && !kind.TcpKind? {
      OpenFlowSafe(l, key, kind, None, now, pushOk);
    }
  }

  lemma ReadyPolls(c: Conn, pollErr: bool, pollHup: bool, sockErr: bool, recv: Recv, tso: bool, now: nat)
    requires Inv(c)
    ensures var c' := HandleReady(c, pollErr, pollHup, sockErr, recv, tso, now);
            c'.io.polls > c.io.polls <==> c'.t.pollArmed
  {
    ReadyArms(c, pollErr, pollHup, sockErr, recv, tso, now);
  }

  lemma PollDoneSafe(l: Loop, id: nat, outcome: Outcome, recv: Recv, tso: bool, now: nat)
    requires Safe(l) && ConnOf(l, id).Some? && NoOp(l.ops, id)
    ensures Safe(PollDone(l, id, outcome, recv, tso, now))
  {
    var c := ConnOf(l, id).value;
    match outcome
    case Ready(pollErr, pollHup, sockErr) =>
      ReadyKeeps(c, pollErr, pollHup, sockErr, recv, tso, now);
      ReadyPolls(c, pollErr, pollHup, sockErr, recv, tso, now);
      IdleHandledSafe(l, id, HandleReady(c, pollErr, pollHup, sockErr, recv, tso, now), now);
    case _ =>
      ResetKeeps(c);
      IdleHandledSafe(l, id, Reset(c), l.table.flows[id].value.lastActive);
  }

  lemma CompletionSafe(l: Loop, id: nat, outcome: Outcome, recv: Recv, tso: bool, now: nat)
    requires Safe(l) && NoOp(l.ops, id)
    ensures Safe(HandleCompletion(l, id, outcome, recv, tso, now))
  {
    if Occupied(l.table, id) {
      var f := l.table.flows[id].value;
      if f.closing || outcome.Cancelled? {
        FreeSlotSafe(l, id);
      } else if f.tcp.Some? {
        PollDoneSafe(l, id, outcome, recv, tso, now);
      } else {
        var answered := outcome.Ready? || (f.kind.Udp? && outcome.Error? && outcome.reported);
        var g := f.(lastActive := if answered then now else f.lastActive);
        PutFlowSafe(l, id, g);
        PushOpSafe(PutFlow(l, id, g), id);
      }
    }
  }

  lemma TickSafe(l: Loop, id: nat, recv: Recv, tso: bool, now: nat)
    requires Safe(l)
    ensures Safe(Tick(l, id, recv, tso, now))
  {
    if ConnOf(l, id).Some? {
      var c := ConnOf(l, id).value;
      TimerKeeps(c, recv, tso, now);
      TimerArms(c, recv, tso, now);
      HandledSafe(l, id, HandleTimer(c, recv, tso, now), l.table.flows[id].value.lastActive);
    }
  }

  // ---------------------------------------------------------------------------------------------
  // Runs
  // ---------------------------------------------------------------------------------------------

  /** The handler of each timer-driven flow in turn; a read that is not given finds nothing to read. */
  function TickAll(l: Loop, ids: seq<nat>, recvs: seq<Recv>, tso: bool, now: nat): (l': Loop)
    requires Safe(l)
    ensures Safe(l')
    decreases |ids|
  {
    if ids == [] then l
    else
      var recv := if recvs == [] then Again else recvs[0];
      TickSafe(l, ids[0], recv, tso, now);
      TickAll(Tick(l, ids[0], recv, tso, now), ids[1..], if recvs == [] then [] else recvs[1..], tso, now)
  }

  function RemoveAll(l: Loop, ids: seq<nat>): (l': Loop)
    requires Safe(l)
    ensures Safe(l')
    decreases |ids|
  {
    if ids == [] then l
    else
      RemoveFlowSafe(l, ids[0]);
      RemoveAll(RemoveFlow(l, ids[0]), ids[1..])
  }

  /** Maintenance of the TCP flows that are due, then reclaiming of the idle flows. */
  function HandleTimerEvent(l: Loop, recvs: seq<Recv>, tso: bool, now: nat): (l': Loop)
    requires Safe(l)
    ensures Safe(l')
  {
    var l1 := if now < RTO then l else TickAll(l, TcpTimerDue(l.table.flows, now - RTO), recvs, tso, now);
    if now < FLOW_EXPIRY then l1 else RemoveAll(l1, Expired(l1.table.flows, now - FLOW_EXPIRY))
  }

  /** Whether the kernel can produce this event: it completes what it holds, and cancels only on request. */
  predicate Possible(l: Loop, e: LoopEvent) {
    e.Completes? ==> e.op in l.ops && !l.ops[e.op].queued && (e.outcome.Cancelled? ==> l.ops[e.op].cancelled)
  }

  /** Every event keeps the loop safe. */
  function StepLoop(l: Loop, tso: bool, e: LoopEvent): (l': Loop)
    requires Safe(l)
    ensures Safe(l')
  {
    if !Possible(l, e) then l
    else
      match e
      case Takes(inTime) => KernelTakesSafe(l, inTime); KernelTakes(l, inTime)
      case Completes(op, outcome, recv, now) =>
        DropOpSafe(l, op);
        CompletionSafe(DropOp(l, op), l.ops[op].slot, outcome, recv, tso, now);
        HandleCompletion(DropOp(l, op), l.ops[op].slot, outcome, recv, tso, now)
      case Segment(key, h, mss, wscale, payload, accept, recv, allowed, pushOk, now) =>
        SegmentSafe(l, key, h, mss, wscale, payload, accept, recv, tso, allowed, pushOk, now);
        HandleSegment(l, key, h, mss, wscale, payload, accept, recv, tso, allowed, pushOk, now)
      case Datagram(key, kind, allowed, pushOk, now) =>
        DatagramSafe(l, key, kind, allowed, pushOk, now);
        HandleDatagram(l, key, kind, allowed, pushOk, now)
      case Timer(recvs, now) => HandleTimerEvent(l, recvs, tso, now)
  }

  /** In every state of every run the loop is safe. */
  function RunLoop(l: Loop, tso: bool, events: seq<LoopEvent>): (l': Loop)
    requires Safe(l)
    ensures Safe(l')
    decreases |events|
  {
    if events == [] then l else StepLoop(RunLoop(l, tso, events[..|events| - 1]), tso, events[|events| - 1])
  }

  /** The pool hands out buffers from the end; the tap takes the first. */
  function Start(buffers: nat): (l: Loop)
    requires 0 < buffers < TWO32
    ensures Safe(l)
  {
    var pool := seq(buffers - 1, i requires 0 <= i => i);
    StartBuffers(pool, buffers);
    Loop(Table([], [], map[]), pool, buffers - 1, buffers, map[], [], 0, 0)
  }

  lemma StartBuffers(pool: seq<nat>, buffers: nat)
    requires 0 < buffers < TWO32 && |pool| == buffers - 1 && forall i :: 0 <= i < |pool| ==> pool[i] == i
    ensures BuffersOk(Table([], [], map[]), pool, buffers - 1, buffers)
  {
    forall b: nat | b < buffers - 1 ensures b in pool { assert pool[b] == b; }
  }

  /**
    An operation in flight names a slot that holds the flow it was submitted for, no other operation
    names that slot, and the slot number fits 32 bits, hence is none of the reserved values.  Only
    operations of closing flows are ever cancelled.
   */
  ghost predicate ReachTheirFlow(l: Loop) {
    forall a :: a in l.ops ==>
      var op := l.ops[a];
      && Occupied(l.table, op.slot) && l.table.flows[op.slot].value.owner == op.owner
      && (op.cancelled ==> l.table.flows[op.slot].value.closing)
      && (forall b :: b in l.ops && l.ops[b].slot == op.slot ==> b == a)
      && op.slot < l.buffers - 1 < TWO32
  }

  lemma SafeReaches(l: Loop)
    requires Safe(l)
    ensures ReachTheirFlow(l)
  {
  }

  /** Completions never hit the wrong flow, in any state of any run. */
  lemma CompletionsReachTheirFlow(buffers: nat, tso: bool, events: seq<LoopEvent>)
    requires 0 < buffers < TWO32
    ensures ReachTheirFlow(RunLoop(Start(buffers), tso, events))
  {
    SafeReaches(RunLoop(Start(buffers), tso, events));
  }
}
