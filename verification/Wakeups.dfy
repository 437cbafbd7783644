/**
  Exactly one operation in flight per flow that waits for one, and a wake-up source for every live
  flow, over all runs in which no TCP poll fails with an error of its own.
 */
module Wakeups {
  import opened Words
  import opened TcpModel
  import opened TcpInvariant
  import opened TcpLiveness
  import opened TcpPolls
  import opened FlowTable
  import opened EventLoop
  import opened Dispatch

  /** A pending operation is really there, a closing flow has one, and a live connection will be woken. */
  ghost predicate Woken(f: FlowTable.Flow, hasOp: bool) {
    && (Pending(f) ==> hasOp)
    && (f.closing ==> Pending(f))
    && (!f.closing && f.tcp.Some? ==> f.tcp.value.gone.None? && Awake(f.tcp.value))
  }

  ghost predicate ExactBut(l: Loop, x: int) {
    forall id: nat :: Occupied(l.table, id) && id != x ==> Woken(l.table.flows[id].value, !NoOp(l.ops, id))
  }

  ghost predicate Exact(l: Loop) { ExactBut(l, -1) }

  lemma ExactSlot(l: Loop, id: nat)
    requires ExactBut(l, id) && (Occupied(l.table, id) ==> Woken(l.table.flows[id].value, !NoOp(l.ops, id)))
    ensures Exact(l)
  {
  }

  lemma ExactGives(l: Loop, id: nat)
    requires Exact(l)
    ensures ExactBut(l, id) && (Occupied(l.table, id) ==> Woken(l.table.flows[id].value, !NoOp(l.ops, id)))
  {
  }

  /** Nothing but slot `id` and its operations changed. */
  ghost predicate OnlyHere(l: Loop, l': Loop, id: nat) {
    && (forall j: nat :: Occupied(l'.table, j) && j != id ==>
          Occupied(l.table, j) && l'.table.flows[j] == l.table.flows[j] && (NoOp(l'.ops, j) ==> NoOp(l.ops, j)))
  }

  lemma OnlyHereExact(l: Loop, l': Loop, id: nat)
    requires ExactBut(l, id) && OnlyHere(l, l', id)
    requires Occupied(l'.table, id) ==> Woken(l'.table.flows[id].value, !NoOp(l'.ops, id))
    ensures Exact(l')
  {
    forall j: nat | Occupied(l'.table, j) ensures Woken(l'.table.flows[j].value, !NoOp(l'.ops, j)) {
      if j != id { assert Occupied(l.table, j); }
    }
  }

  lemma PushKeepsOps(l: Loop, id: nat)
    requires Occupied(l.table, id) && l.nextOp !in l.ops
    ensures OnlyHere(l, PushOp(l, id), id) && !NoOp(PushOp(l, id).ops, id)
  {
    var l' := PushOp(l, id);
    assert l.nextOp in l'.ops && l'.ops[l.nextOp].slot == id;
    forall j: nat | NoOp(l'.ops, j) ensures NoOp(l.ops, j) {
      forall a | a in l.ops ensures l.ops[a].slot != j { assert l'.ops[a] == l.ops[a]; }
    }
  }

  lemma OnlyHereTrans(a: Loop, b: Loop, c: Loop, id: nat)
    requires OnlyHere(a, b, id) && OnlyHere(b, c, id)
    ensures OnlyHere(a, c, id)
  {
  }

  lemma RemoveOnlyHere(l: Loop, id: nat)
    ensures OnlyHere(l, RemoveFlow(l, id), id)
    ensures OnlyHere(l, FreeSlot(l, id), id)
  {
  }

  lemma SettleOnlyHere(l: Loop, id: nat, f: FlowTable.Flow, polled: bool)
    requires Occupied(l.table, id) && l.nextOp !in l.ops
    ensures OnlyHere(l, Settle(l, id, f, polled), id)
  {
    var l1 := PutFlow(l, id, f);
    assert OnlyHere(l, l1, id);
    PushKeepsOps(l1, id);
    var l2 := if polled then PushOp(l1, id) else l1;
    RemoveOnlyHere(l2, id);
    OnlyHereTrans(l, l1, l2, id);
    OnlyHereTrans(l, l2, RemoveFlow(l2, id), id);
  }

  /** What a handler must leave in its slot. */
  ghost predicate Leaves(l: Loop, id: nat, f: FlowTable.Flow, polled: bool) {
    && (Pending(f) ==> polled || !NoOp(l.ops, id))
    && (f.closing ==> Pending(f))
    && (!f.closing && f.tcp.Some? && f.tcp.value.gone.None? ==> Awake(f.tcp.value))
  }

  lemma SettleWoken(l: Loop, id: nat, f: FlowTable.Flow, polled: bool)
    requires Occupied(l.table, id) && l.nextOp !in l.ops && Leaves(l, id, f, polled)
    ensures var l' := Settle(l, id, f, polled);
            Occupied(l'.table, id) ==> Woken(l'.table.flows[id].value, !NoOp(l'.ops, id))
  {
    PushKeepsOps(PutFlow(l, id, f), id);
  }

  lemma SettleExact(l: Loop, id: nat, f: FlowTable.Flow, polled: bool)
    requires Safe(l) && ExactBut(l, id) && Occupied(l.table, id) && Leaves(l, id, f, polled)
    ensures Exact(Settle(l, id, f, polled))
  {
    SettleOnlyHere(l, id, f, polled);
    SettleWoken(l, id, f, polled);
    OnlyHereExact(l, Settle(l, id, f, polled), id);
  }

  lemma RemoveFlowExact(l: Loop, id: nat)
    requires Safe(l) && Exact(l)
    ensures Exact(RemoveFlow(l, id))
  {
    ExactGives(l, id);
    RemoveOnlyHere(l, id);
    OnlyHereExact(l, RemoveFlow(l, id), id);
  }

  lemma HandledExact(l: Loop, id: nat, c': Conn, lastActive: nat)
    requires Safe(l) && Exact(l) && ConnOf(l, id).Some? && Arms(ConnOf(l, id).value, c')
    requires Live(l.table, id) ==> Awake(c')
    ensures Exact(Handled(l, id, c', lastActive))
  {
    ExactGives(l, id);
    var f := l.table.flows[id].value;
    SettleExact(l, id, f.(lastActive := lastActive, tcp := Some(c')), c'.io.polls > f.tcp.value.io.polls);
  }

  lemma IdleHandledExact(l: Loop, id: nat, c': Conn, lastActive: nat)
    requires Safe(l) && ExactBut(l, id) && ConnOf(l, id).Some? && Live(l.table, id) && Awake(c')
    requires c'.io.polls > ConnOf(l, id).value.io.polls <==> c'.t.pollArmed
    ensures Exact(Handled(l, id, c', lastActive))
  {
    var f := l.table.flows[id].value;
    SettleExact(l, id, f.(lastActive := lastActive, tcp := Some(c')), c'.io.polls > f.tcp.value.io.polls);
  }

  // ---------------------------------------------------------------------------------------------
  // Handlers
  // ---------------------------------------------------------------------------------------------

  /** A SYN that an established flow answers comes only while something else will wake the flow. */
  ghost predicate SegmentWakes(l: Loop, id: nat, h: Header) {
    ConnOf(l, id).Some? && ConnOf(l, id).value.t.state.Established? && h.flags.syn && !h.flags.rst ==>
      var t := ConnOf(l, id).value.t; t.pollArmed || !t.hostFin.NotSent? || t.guestWindow == 0
  }

  lemma GuestAwake(c: Conn, h: Header, payload: seq<byte>, accept: nat, recv: Recv, tso: bool, now: nat)
    requires Inv(c) && Awake(c) && c.gone.None?
    requires c.t.state.Established? && h.flags.syn && !h.flags.rst ==>
               c.t.pollArmed || !c.t.hostFin.NotSent? || c.t.guestWindow == 0
    ensures Awake(HandleGuest(c, h, payload, accept, recv, tso, now))
  {
    if c.t.state.Established? {
      if h.flags.syn && !h.flags.rst { SynAwake(c); } else { GuestRevives(c, h, payload, accept, recv, tso, now); }
    }
  }

  lemma TouchExact(l: Loop, id: nat, now: nat)
    requires Safe(l) && Exact(l) && Occupied(l.table, id)
    ensures Exact(PutFlow(l, id, l.table.flows[id].value.(lastActive := now)))
  {
    ExactGives(l, id);
    OnlyHereExact(l, PutFlow(l, id, l.table.flows[id].value.(lastActive := now)), id);
  }

  lemma ConnExact(l: Loop, id: nat, h: Header, payload: seq<byte>, accept: nat, recv: Recv, tso: bool, now: nat)
    requires Safe(l) && Exact(l) && Live(l.table, id) && SegmentWakes(l, id, h) && ConnOf(l, id).Some?
    requires var c := ConnOf(l, id).value; Inv(c) && Awake(c) && c.gone.None?
    ensures Exact(Handled(l, id, HandleGuest(ConnOf(l, id).value, h, payload, accept, recv, tso, now), now))
  {
    var c := ConnOf(l, id).value;
    GuestAwake(c, h, payload, accept, recv, tso, now);
    GuestArms(c, h, payload, accept, recv, tso, now);
    HandledExact(l, id, HandleGuest(c, h, payload, accept, recv, tso, now), now);
  }

  lemma SegmentToExact(
    l: Loop, id: nat, h: Header, payload: seq<byte>, accept: nat, recv: Recv, tso: bool, now: nat)
    requires Safe(l) && Exact(l) && Live(l.table, id) && SegmentWakes(l, id, h)
    ensures Exact(SegmentTo(l, id, h, payload, accept, recv, tso, now))
  {
    if ConnOf(l, id).None? {
      TouchExact(l, id, now);
    } else {
      ExactGives(l, id);
      ConnExact(l, id, h, payload, accept, recv, tso, now);
    }
  }

  lemma AddOnlyHere(l: Loop, f: FlowTable.Flow)
    requires Safe(l) && l.pool != []
    ensures OnlyHere(l, AddFlow(l, f), NextSlot(l.table))
  {
    InsertCount(l.table, f);
    forall j: nat | Occupied(AddFlow(l, f).table, j) && j != NextSlot(l.table)
      ensures Occupied(l.table, j) && AddFlow(l, f).table.flows[j] == l.table.flows[j]
    {
    }
  }

  lemma OpenFlowExact(l: Loop, key: Key, kind: Kind, tcp: Option<Conn>, now: nat, pushOk: bool)
    requires Safe(l) && Exact(l) && key !in l.table.byKey
    requires (kind.TcpKind? <==> tcp.Some?)
    requires tcp.Some? ==> Inv(tcp.value) && tcp.value.t.pollArmed && tcp.value.gone.None?
    ensures Exact(OpenFlow(l, key, kind, tcp, now, pushOk))
  {
    if l.pool == [] {
      var victim := LruEvictable(l.table.flows);
      if victim.Some? { RemoveFlowExact(l, victim.value); }
    } else {
      var f, id := NewFlow(l, key, kind, tcp, now), NextSlot(l.table);
      var l1 := AddFlow(l, f);
      ExactGives(l, id);
      AddFlowSafe(l, f);
      AddOnlyHere(l, f);
      PushKeepsOps(l1, id);
      RemoveOnlyHere(l1, id);
      var l2 := OpenFlow(l, key, kind, tcp, now, pushOk);
      OnlyHereTrans(l, l1, l2, id);
      OnlyHereExact(l, l2, id);
    }
  }

  lemma DropExactBut(l: Loop, a: nat)
    requires Exact(l) && a in l.ops
    ensures ExactBut(DropOp(l, a), l.ops[a].slot)
  {
    var l' := DropOp(l, a);
    forall j: nat | j != l.ops[a].slot && NoOp(l'.ops, j) ensures NoOp(l.ops, j) {
      forall b | b in l.ops ensures l.ops[b].slot != j { if b != a { assert b in l'.ops; } }
    }
  }

  lemma ReadyExact(l: Loop, id: nat, pollErr: bool, pollHup: bool, sockErr: bool, recv: Recv, tso: bool, now: nat)
    requires Safe(l) && ExactBut(l, id) && Live(l.table, id) && ConnOf(l, id).Some?
    ensures Exact(PollDone(l, id, Ready(pollErr, pollHup, sockErr), recv, tso, now))
  {
    var c := ConnOf(l, id).value;
    ReadyAwake(c, pollErr, pollHup, sockErr, recv, tso, now);
    ReadyPolls(c, pollErr, pollHup, sockErr, recv, tso, now);
    IdleHandledExact(l, id, HandleReady(c, pollErr, pollHup, sockErr, recv, tso, now), now);
  }

  /** The one event that leaves a flow without its operation: a poll that failed on its own. */
  predicate PollFails(l: Loop, id: nat, outcome: Outcome) {
    Live(l.table, id) && l.table.flows[id].value.tcp.Some? && outcome.Error?
  }

  lemma RearmExact(l: Loop, id: nat, lastActive: nat)
    requires Safe(l) && ExactBut(l, id) && Live(l.table, id) && ConnOf(l, id).None?
    ensures Exact(PushOp(PutFlow(l, id, l.table.flows[id].value.(lastActive := lastActive)), id))
  {
    var l1 := PutFlow(l, id, l.table.flows[id].value.(lastActive := lastActive));
    PushKeepsOps(l1, id);
    OnlyHereTrans(l, l1, PushOp(l1, id), id);
    OnlyHereExact(l, PushOp(l1, id), id);
  }

  lemma CompletionExact(l: Loop, id: nat, outcome: Outcome, recv: Recv, tso: bool, now: nat)
    requires Safe(l) && ExactBut(l, id) && NoOp(l.ops, id) && !PollFails(l, id, outcome)
    ensures Exact(HandleCompletion(l, id, outcome, recv, tso, now))
  {
    var l' := HandleCompletion(l, id, outcome, recv, tso, now);
    if !Occupied(l.table, id) {
      ExactSlot(l, id);
    } else {
      var f := l.table.flows[id].value;
      if f.closing || outcome.Cancelled? {
        RemoveOnlyHere(l, id);
        OnlyHereExact(l, l', id);
      } else if f.tcp.Some? {
        ReadyExact(l, id, outcome.pollErr, outcome.pollHup, outcome.sockErr, recv, tso, now);
      } else {
        var answered := outcome.Ready? || (f.kind.Udp? && outcome.Error? && outcome.reported);
        RearmExact(l, id, if answered then now else f.lastActive);
      }
    }
  }

  lemma TickExact(l: Loop, id: nat, recv: Recv, tso: bool, now: nat)
    requires Safe(l) && Exact(l)
    ensures Exact(Tick(l, id, recv, tso, now))
  {
    if ConnOf(l, id).Some? {
      ExactGives(l, id);
      var f := l.table.flows[id].value;
      if !f.closing { TimerAwake(f.tcp.value, recv, tso, now); }
      TimerArms(f.tcp.value, recv, tso, now);
      HandledExact(l, id, HandleTimer(f.tcp.value, recv, tso, now), f.lastActive);
    }
  }

  lemma TakesExact(l: Loop, inTime: bool)
    requires Safe(l) && Exact(l)
    ensures Exact(KernelTakes(l, inTime))
  {
    var l' := KernelTakes(l, inTime);
    forall j: nat | NoOp(l'.ops, j) ensures NoOp(l.ops, j) {
      forall a | a in l.ops ensures l.ops[a].slot != j { assert a in l'.ops && l'.ops[a].slot == l.ops[a].slot; }
    }
  }

  lemma {:induction false} TickAllExact(l: Loop, ids: seq<nat>, recvs: seq<Recv>, tso: bool, now: nat)
    requires Safe(l) && Exact(l)
    ensures Exact(TickAll(l, ids, recvs, tso, now))
    decreases |ids|
  {
    if ids != [] {
      var recv := if recvs == [] then Again else recvs[0];
      TickSafe(l, ids[0], recv, tso, now);
      TickExact(l, ids[0], recv, tso, now);
      TickAllExact(Tick(l, ids[0], recv, tso, now), ids[1..], if recvs == [] then [] else recvs[1..], tso, now);
    }
  }

  lemma {:induction false} RemoveAllExact(l: Loop, ids: seq<nat>)
    requires Safe(l) && Exact(l)
    ensures Exact(RemoveAll(l, ids))
    decreases |ids|
  {
    if ids != [] {
      RemoveFlowSafe(l, ids[0]);
      RemoveFlowExact(l, ids[0]);
      RemoveAllExact(RemoveFlow(l, ids[0]), ids[1..]);
    }
  }

  lemma TimerExact(l: Loop, recvs: seq<Recv>, tso: bool, now: nat)
    requires Safe(l) && Exact(l)
    ensures Exact(HandleTimerEvent(l, recvs, tso, now))
  {
    if now >= RTO { TickAllExact(l, TcpTimerDue(l.table.flows, now - RTO), recvs, tso, now); }
    var l1 := if now < RTO then l else TickAll(l, TcpTimerDue(l.table.flows, now - RTO), recvs, tso, now);
    if now >= FLOW_EXPIRY { RemoveAllExact(l1, Expired(l1.table.flows, now - FLOW_EXPIRY)); }
  }

  lemma SegmentExact(
    l: Loop, key: Key, h: Header, mss: Option<u16>, wscale: Option<byte>, payload: seq<byte>, accept: nat, recv: Recv,
    tso: bool, allowed: bool, pushOk: bool, now: nat)
    requires Safe(l) && Exact(l) && (key in l.table.byKey ==> SegmentWakes(l, l.table.byKey[key], h))
    ensures Exact(HandleSegment(l, key, h, mss, wscale, payload, accept, recv, tso, allowed, pushOk, now))
  {
    if key in l.table.byKey {
      SegmentToExact(l, l.table.byKey[key], h, payload, accept, recv, tso, now);
    } else if h.flags.syn && !h.flags.ack && !h.flags.rst && allowed {
      OpenFlowExact(l, key, TcpKind, Some(Opened(h.seqno, h.window, mss, wscale, now)), now, pushOk);
    }
  }

  lemma DatagramExact(l: Loop, key: Key, kind: Kind, allowed: bool, pushOk: bool, now: nat)
    requires Safe(l) && Exact(l)
    ensures Exact(HandleDatagram(l, key, kind, allowed, pushOk, now))
  {
    if key in l.table.byKey {
      var id := l.table.byKey[key];
      ExactGives(l, id);
      OnlyHereExact(l, PutFlow(l, id, l.table.flows[id].value.(lastActive := now)), id);
    } else if allowed && !kind.TcpKind? {
      OpenFlowExact(l, key, kind, None, now, pushOk);
    }
  }

  /** No poll of a live TCP flow fails on its own, and SYNs come only while something else wakes the flow. */
  ghost predicate Benign(l: Loop, e: LoopEvent) {
    && (e.Completes? && Possible(l, e) ==> !PollFails(l, l.ops[e.op].slot, e.outcome))
    && (e.Segment? && e.key in l.table.byKey ==> SegmentWakes(l, l.table.byKey[e.key], e.header))
  }

  lemma StepExact(l: Loop, tso: bool, e: LoopEvent)
    requires Safe(l) && Exact(l) && Benign(l, e)
    ensures Exact(StepLoop(l, tso, e))
  {
    if Possible(l, e) {
      match e
      case Takes(inTime) => TakesExact(l, inTime);
      case Completes(op, outcome, recv, now) =>
        DropOpSafe(l, op);
        DropExactBut(l, op);
        CompletionExact(DropOp(l, op), l.ops[op].slot, outcome, recv, tso, now);
      case Segment(key, h, mss, wscale, payload, accept, recv, allowed, pushOk, now) =>
        SegmentExact(l, key, h, mss, wscale, payload, accept, recv, tso, allowed, pushOk, now);
      case Datagram(key, kind, allowed, pushOk, now) => DatagramExact(l, key, kind, allowed, pushOk, now);
      case Timer(recvs, now) => TimerExact(l, recvs, tso, now);
    }
  }

  ghost predicate BenignRun(l: Loop, tso: bool, events: seq<LoopEvent>)
    requires Safe(l)
  {
    forall i :: 0 <= i < |events| ==> BenignAt(l, tso, events, i)
  }

  ghost predicate BenignAt(l: Loop, tso: bool, events: seq<LoopEvent>, i: nat)
    requires Safe(l) && i < |events|
  {
    Benign(RunLoop(l, tso, events[..i]), events[i])
  }

  lemma BenignPrefix(l: Loop, tso: bool, events: seq<LoopEvent>, n: nat)
    requires Safe(l) && BenignRun(l, tso, events) && n <= |events|
    ensures BenignRun(l, tso, events[..n])
  {
    forall i | 0 <= i < n ensures BenignAt(l, tso, events[..n], i) {
      BenignShorter(l, tso, events, n, i);
    }
  }

  lemma BenignShorter(l: Loop, tso: bool, events: seq<LoopEvent>, n: nat, i: nat)
    requires Safe(l) && i < n <= |events| && BenignAt(l, tso, events, i)
    ensures BenignAt(l, tso, events[..n], i)
  {
    assert events[..n][..i] == events[..i];
  }

  /** In every state of every benign run, each flow that waits for an operation has exactly one. */
  lemma {:induction false} RunExact(l: Loop, tso: bool, events: seq<LoopEvent>)
    requires Safe(l) && Exact(l) && BenignRun(l, tso, events)
    ensures Exact(RunLoop(l, tso, events))
    decreases |events|
  {
    if events != [] {
      var n := |events| - 1;
      BenignPrefix(l, tso, events, n);
      RunExact(l, tso, events[..n]);
      assert BenignAt(l, tso, events, n);
      LastExact(l, tso, events, n);
    }
  }

  lemma LastExact(l: Loop, tso: bool, events: seq<LoopEvent>, n: nat)
    requires Safe(l) && n + 1 == |events| && BenignAt(l, tso, events, n) && Exact(RunLoop(l, tso, events[..n]))
    ensures Exact(RunLoop(l, tso, events))
  {
    StepExact(RunLoop(l, tso, events[..n]), tso, events[n]);
  }

  // ---------------------------------------------------------------------------------------------
  // A poll that fails on its own
  // ---------------------------------------------------------------------------------------------

  /** A slot that waits for an operation that nobody submitted. */
  ghost predicate Leaked(l: Loop, id: nat) {
    Occupied(l.table, id) && l.table.flows[id].value.closing && NoOp(l.ops, id)
  }

  lemma PollFailureLeaks(l: Loop, id: nat, outcome: Outcome, recv: Recv, tso: bool, now: nat)
    requires Safe(l) && NoOp(l.ops, id) && PollFails(l, id, outcome) && l.table.flows[id].value.tcp.value.t.pollArmed
    ensures Leaked(HandleCompletion(l, id, outcome, recv, tso, now), id)
  {
  }

  lemma StepLeaks(l: Loop, a: nat, outcome: Outcome, recv: Recv, tso: bool, now: nat)
    requires Safe(l) && Possible(l, Completes(a, outcome, recv, now)) && PollFails(l, l.ops[a].slot, outcome)
    ensures Leaked(StepLoop(l, tso, Completes(a, outcome, recv, now)), l.ops[a].slot)
  {
    DropOpSafe(l, a);
    PollFailureLeaks(DropOp(l, a), l.ops[a].slot, outcome, recv, tso, now);
  }

  lemma ExactHasNoLeak(l: Loop, id: nat)
    requires Leaked(l, id)
    ensures !Exact(l)
  {
  }

  /** A completion keeps the loop exact if and only if it is not a failed poll of a live TCP flow. */
  lemma ExactUnlessPollFails(l: Loop, a: nat, outcome: Outcome, recv: Recv, tso: bool, now: nat)
    requires Safe(l) && Exact(l) && Possible(l, Completes(a, outcome, recv, now))
    ensures Exact(StepLoop(l, tso, Completes(a, outcome, recv, now))) <==> !PollFails(l, l.ops[a].slot, outcome)
  {
    if PollFails(l, l.ops[a].slot, outcome) {
      StepLeaks(l, a, outcome, recv, tso, now);
      ExactHasNoLeak(StepLoop(l, tso, Completes(a, outcome, recv, now)), l.ops[a].slot);
    } else {
      StepExact(l, tso, Completes(a, outcome, recv, now));
    }
  }

  /** The leaked slot as it was. */
  ghost predicate Kept(l: Loop, l': Loop, id: nat) {
    Leaked(l, id) && Leaked(l', id) && l'.table.flows[id] == l.table.flows[id] && l'.buffers == l.buffers
  }

  lemma ElsewhereKept(l: Loop, j: nat, f: FlowTable.Flow, id: nat)
    requires Leaked(l, id) && j != id
    ensures Kept(l, RemoveFlow(l, j), id) && Kept(l, FreeSlot(l, j), id)
    ensures Occupied(l.table, j) ==> Kept(l, PushOp(l, j), id) && Kept(l, PutFlow(l, j, f), id)
  {
  }

  lemma SettleKept(l: Loop, j: nat, f: FlowTable.Flow, polled: bool, id: nat)
    requires Leaked(l, id) && j != id && Occupied(l.table, j)
    ensures Kept(l, Settle(l, j, f, polled), id)
  {
    ElsewhereKept(l, j, f, id);
    var l1 := PutFlow(l, j, f);
    ElsewhereKept(l1, j, f, id);
    var l2 := if polled then PushOp(l1, j) else l1;
    ElsewhereKept(l2, j, f, id);
  }

  lemma OpenFlowKept(l: Loop, key: Key, kind: Kind, tcp: Option<Conn>, now: nat, pushOk: bool, id: nat)
    requires Safe(l) && Leaked(l, id)
    ensures Kept(l, OpenFlow(l, key, kind, tcp, now, pushOk), id)
  {
    if l.pool == [] {
      var victim := LruEvictable(l.table.flows);
      if victim.Some? { ElsewhereKept(l, victim.value, l.table.flows[id].value, id); }
    } else {
      var f, slot := NewFlow(l, key, kind, tcp, now), NextSlot(l.table);
      InsertCount(l.table, f);
      var l1 := AddFlow(l, f);
      assert Kept(l, l1, id);
      ElsewhereKept(l1, slot, f, id);
    }
  }

  lemma CompletionKept(l: Loop, j: nat, outcome: Outcome, recv: Recv, tso: bool, now: nat, id: nat)
    requires Safe(l) && Leaked(l, id) && j != id
    ensures Kept(l, HandleCompletion(l, j, outcome, recv, tso, now), id)
  {
    if Occupied(l.table, j) {
      var f := l.table.flows[j].value;
      if f.closing || outcome.Cancelled? {
        ElsewhereKept(l, j, f, id);
      } else if f.tcp.Some? {
        PollDoneKept(l, j, outcome, recv, tso, now, id);
      } else {
        var answered := outcome.Ready? || (f.kind.Udp? && outcome.Error? && outcome.reported);
        var g := f.(lastActive := if answered then now else f.lastActive);
        ElsewhereKept(l, j, g, id);
        ElsewhereKept(PutFlow(l, j, g), j, g, id);
      }
    }
  }

  lemma HandledKept(l: Loop, j: nat, c': Conn, lastActive: nat, id: nat)
    requires Leaked(l, id) && j != id && ConnOf(l, j).Some?
    ensures Kept(l, Handled(l, j, c', lastActive), id)
  {
    var f := l.table.flows[j].value;
    SettleKept(l, j, f.(lastActive := lastActive, tcp := Some(c')), c'.io.polls > f.tcp.value.io.polls, id);
  }

  lemma PollDoneKept(l: Loop, j: nat, outcome: Outcome, recv: Recv, tso: bool, now: nat, id: nat)
    requires Safe(l) && Leaked(l, id) && j != id && ConnOf(l, j).Some?
    ensures Kept(l, PollDone(l, j, outcome, recv, tso, now), id)
  {
    var c := ConnOf(l, j).value;
    match outcome
    case Ready(pollErr, pollHup, sockErr) =>
      HandledKept(l, j, HandleReady(c, pollErr, pollHup, sockErr, recv, tso, now), now, id);
    case _ => HandledKept(l, j, Reset(c), l.table.flows[j].value.lastActive, id);
  }

  lemma SegmentKept(
    l: Loop, key: Key, h: Header, mss: Option<u16>, wscale: Option<byte>, payload: seq<byte>, accept: nat, recv: Recv,
    tso: bool, allowed: bool, pushOk: bool, now: nat, id: nat)
    requires Safe(l) && Leaked(l, id)
    ensures Kept(l, HandleSegment(l, key, h, mss, wscale, payload, accept, recv, tso, allowed, pushOk, now), id)
  {
    if key in l.table.byKey {
      var j := l.table.byKey[key];
      var f := l.table.flows[j].value;
      if f.tcp.None? {
        ElsewhereKept(l, j, f.(lastActive := now), id);
      } else {
        HandledKept(l, j, HandleGuest(f.tcp.value, h, payload, accept, recv, tso, now), now, id);
      }
    } else if h.flags.syn && !h.flags.ack && !h.flags.rst && allowed {
      OpenFlowKept(l, key, TcpKind, Some(Opened(h.seqno, h.window, mss, wscale, now)), now, pushOk, id);
    }
  }

  lemma DatagramKept(l: Loop, key: Key, kind: Kind, allowed: bool, pushOk: bool, now: nat, id: nat)
    requires Safe(l) && Leaked(l, id)
    ensures Kept(l, HandleDatagram(l, key, kind, allowed, pushOk, now), id)
  {
    if key in l.table.byKey {
      var j := l.table.byKey[key];
      ElsewhereKept(l, j, l.table.flows[j].value.(lastActive := now), id);
    } else if allowed && !kind.TcpKind? {
      OpenFlowKept(l, key, kind, None, now, pushOk, id);
    }
  }

  lemma {:induction false} TickAllKept(l: Loop, ids: seq<nat>, recvs: seq<Recv>, tso: bool, now: nat, id: nat)
    requires Safe(l) && Leaked(l, id) && id !in ids
    ensures Kept(l, TickAll(l, ids, recvs, tso, now), id)
    decreases |ids|
  {
    if ids != [] {
      var recv := if recvs == [] then Again else recvs[0];
      TickSafe(l, ids[0], recv, tso, now);
      TickKept(l, ids[0], recv, tso, now, id);
      TickAllKept(Tick(l, ids[0], recv, tso, now), ids[1..], if recvs == [] then [] else recvs[1..], tso, now, id);
    }
  }

  lemma TickKept(l: Loop, j: nat, recv: Recv, tso: bool, now: nat, id: nat)
    requires Safe(l) && Leaked(l, id) && j != id
    ensures Kept(l, Tick(l, j, recv, tso, now), id)
  {
    if ConnOf(l, j).Some? {
      HandledKept(l, j, HandleTimer(ConnOf(l, j).value, recv, tso, now), l.table.flows[j].value.lastActive, id);
    }
  }

  lemma {:induction false} RemoveAllKept(l: Loop, ids: seq<nat>, id: nat)
    requires Safe(l) && Leaked(l, id) && id !in ids
    ensures Kept(l, RemoveAll(l, ids), id)
    decreases |ids|
  {
    if ids != [] {
      RemoveFlowSafe(l, ids[0]);
      ElsewhereKept(l, ids[0], l.table.flows[id].value, id);
      RemoveAllKept(RemoveFlow(l, ids[0]), ids[1..], id);
    }
  }

  lemma TimerKept(l: Loop, recvs: seq<Recv>, tso: bool, now: nat, id: nat)
    requires Safe(l) && Leaked(l, id)
    ensures Kept(l, HandleTimerEvent(l, recvs, tso, now), id)
  {
    if now >= RTO { TickAllKept(l, TcpTimerDue(l.table.flows, now - RTO), recvs, tso, now, id); }
    var l1 := if now < RTO then l else TickAll(l, TcpTimerDue(l.table.flows, now - RTO), recvs, tso, now);
    if now >= FLOW_EXPIRY { RemoveAllKept(l1, Expired(l1.table.flows, now - FLOW_EXPIRY), id); }
  }

  lemma TakesKept(l: Loop, inTime: bool, id: nat)
    requires Safe(l) && Leaked(l, id)
    ensures Kept(l, KernelTakes(l, inTime), id)
  {
  }

  lemma DropKept(l: Loop, a: nat, id: nat)
    requires Leaked(l, id)
    ensures Kept(l, DropOp(l, a), id)
  {
  }

  lemma StepKept(l: Loop, tso: bool, e: LoopEvent, id: nat)
    requires Safe(l) && Leaked(l, id)
    ensures Kept(l, StepLoop(l, tso, e), id)
  {
    if Possible(l, e) {
      match e
      case Takes(inTime) => TakesKept(l, inTime, id);
      case Completes(op, outcome, recv, now) =>
        DropOpSafe(l, op);
        DropKept(l, op, id);
        CompletionKept(DropOp(l, op), l.ops[op].slot, outcome, recv, tso, now, id);
      case Segment(key, h, mss, wscale, payload, accept, recv, allowed, pushOk, now) =>
        SegmentKept(l, key, h, mss, wscale, payload, accept, recv, tso, allowed, pushOk, now, id);
      case Datagram(key, kind, allowed, pushOk, now) => DatagramKept(l, key, kind, allowed, pushOk, now, id);
      case Timer(recvs, now) => TimerKept(l, recvs, tso, now, id);
    }
  }

  /** A leaked slot, with its buffer, stays as it is whatever happens: nothing will ever free it. */
  lemma {:induction false} LeakIsForever(l: Loop, tso: bool, events: seq<LoopEvent>, id: nat)
    requires Safe(l) && Leaked(l, id)
    ensures Kept(l, RunLoop(l, tso, events), id)
    decreases |events|
  {
    if events != [] {
      var n := |events| - 1;
      LeakIsForever(l, tso, events[..n], id);
      StepKept(RunLoop(l, tso, events[..n]), tso, events[n], id);
    }
  }
}
