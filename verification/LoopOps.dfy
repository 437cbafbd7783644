/** Operations and cancel requests: what the kernel makes of the queue, and that whatever closes is cancelled. */
module LoopOps {
  import opened Words
  import opened TcpModel
  import opened FlowTable
  import opened EventLoop
  import opened Dispatch

  // ---------------------------------------------------------------------------------------------
  // The kernel
  // ---------------------------------------------------------------------------------------------

  /** What becomes of one operation when the kernel takes entry `x` of the queue. */
  function OpAfter(a: nat, op: Op, x: Sqe, inTime: bool): Op {
    if x == Submit(a) then op.(queued := false)
    else if x.Cancel? && inTime && op.slot == x.slot && !op.queued then op.(cancelled := true)
    else op
  }

  ghost predicate OpsFollow(ops: map<nat, Op>, ops': map<nat, Op>, x: Sqe, inTime: bool) {
    ops'.Keys == ops.Keys && forall a :: a in ops ==> ops'[a] == OpAfter(a, ops[a], x, inTime)
  }

  lemma TakesOps(l: Loop, inTime: bool)
    requires QueueOk(l.sq, l.ops) && l.sq != []
    ensures OpsFollow(l.ops, KernelTakes(l, inTime).ops, l.sq[0], inTime)
  {
  }

  /** The kernel takes the oldest entry: the operation to submit, or the slot whose operation to cancel. */
  lemma TakesOldest(l: Loop, tso: bool, inTime: bool)
    requires Safe(l) && l.sq != []
    ensures var l' := StepLoop(l, tso, Takes(inTime));
            l' == l.(ops := l'.ops, sq := l.sq[1..]) && OpsFollow(l.ops, l'.ops, l.sq[0], inTime)
  {
    TakesOps(l, inTime);
    assert StepLoop(l, tso, Takes(inTime)) == KernelTakes(l, inTime);
  }

  // ---------------------------------------------------------------------------------------------
  // Closing flows
  // ---------------------------------------------------------------------------------------------

  ghost predicate Closing(l: Loop, id: nat, owner: nat) {
    Occupied(l.table, id) && l.table.flows[id].value.closing && l.table.flows[id].value.owner == owner
  }

  /** The queue only grew, and every flow that started closing has a cancel request in it. */
  ghost predicate Cancels(l: Loop, l': Loop) {
    && l.sq <= l'.sq
    && forall id: nat, owner: nat :: Closing(l', id, owner) ==> Closing(l, id, owner) || Cancel(id, owner) in l'.sq
  }

  lemma CancelsTrans(a: Loop, b: Loop, c: Loop)
    requires Cancels(a, b) && Cancels(b, c)
    ensures Cancels(a, c)
  {
    forall id: nat, owner: nat | Closing(c, id, owner)
      ensures Closing(a, id, owner) || Cancel(id, owner) in c.sq
    {
      if Closing(b, id, owner) { InLonger(b.sq, c.sq, Cancel(id, owner)); }
    }
  }

  lemma InLonger(sq: seq<Sqe>, sq': seq<Sqe>, x: Sqe)
    requires sq <= sq'
    ensures x in sq ==> x in sq'
  {
    if x in sq {
      var i :| 0 <= i < |sq| && sq[i] == x;
      assert sq'[i] == x;
    }
  }

  lemma FreeCancels(l: Loop, id: nat)
    ensures Cancels(l, FreeSlot(l, id))
  {
  }

  lemma CloseCancels(l: Loop, id: nat)
    requires Occupied(l.table, id)
    ensures Cancels(l, CloseSlot(l, id))
  {
    var l', x := CloseSlot(l, id), Cancel(id, l.table.flows[id].value.owner);
    assert l'.sq[|l.sq|] == x;
  }

  lemma RemoveCancels(l: Loop, id: nat)
    ensures Cancels(l, RemoveFlow(l, id))
  {
    if Occupied(l.table, id) && Pending(l.table.flows[id].value) {
      CloseCancels(l, id);
    } else {
      FreeCancels(l, id);
    }
  }

  lemma PutCancels(l: Loop, id: nat, f: FlowTable.Flow)
    requires Occupied(l.table, id)
    requires f.closing == l.table.flows[id].value.closing && f.owner == l.table.flows[id].value.owner
    ensures Cancels(l, PutFlow(l, id, f))
  {
  }

  lemma PushCancels(l: Loop, id: nat)
    requires Occupied(l.table, id)
    ensures Cancels(l, PushOp(l, id))
  {
  }

  lemma SettleCancels(l: Loop, id: nat, f: FlowTable.Flow, polled: bool)
    requires Occupied(l.table, id)
    requires f.closing == l.table.flows[id].value.closing && f.owner == l.table.flows[id].value.owner
    ensures Cancels(l, Settle(l, id, f, polled))
  {
    var l1 := PutFlow(l, id, f);
    var l2 := if polled then PushOp(l1, id) else l1;
    PutCancels(l, id, f);
    if polled {
      PushCancels(l1, id);
      CancelsTrans(l, l1, l2);
    }
    RemoveCancels(l2, id);
    CancelsTrans(l, l2, RemoveFlow(l2, id));
  }

  lemma HandledCancels(l: Loop, id: nat, c': Conn, lastActive: nat)
    requires ConnOf(l, id).Some?
    ensures Cancels(l, Handled(l, id, c', lastActive))
  {
    var f := l.table.flows[id].value;
    SettleCancels(l, id, f.(lastActive := lastActive, tcp := Some(c')), c'.io.polls > f.tcp.value.io.polls);
  }

  lemma AddCancels(l: Loop, f: FlowTable.Flow)
    requires FreeOk(l.table) && l.pool != [] && !f.closing
    ensures Cancels(l, AddFlow(l, f)) && Occupied(AddFlow(l, f).table, NextSlot(l.table))
  {
    InsertCount(l.table, f);
  }

  lemma OpenCancels(l: Loop, key: Key, kind: Kind, tcp: Option<Conn>, now: nat, pushOk: bool)
    requires FreeOk(l.table)
    ensures Cancels(l, OpenFlow(l, key, kind, tcp, now, pushOk))
  {
    if l.pool == [] {
      var victim := LruEvictable(l.table.flows);
      if victim.Some? { RemoveCancels(l, victim.value); }
    } else {
      var id, l1 := NextSlot(l.table), AddFlow(l, NewFlow(l, key, kind, tcp, now));
      AddCancels(l, NewFlow(l, key, kind, tcp, now));
      if pushOk { PushCancels(l1, id); } else { FreeCancels(l1, id); }
      CancelsTrans(l, l1, if pushOk then PushOp(l1, id) else FreeSlot(l1, id));
    }
  }

  lemma SegmentToCancels(
    l: Loop, id: nat, h: Header, payload: seq<byte>, accept: nat, recv: Recv, tso: bool, now: nat)
    requires Safe(l) && Occupied(l.table, id)
    ensures Cancels(l, SegmentTo(l, id, h, payload, accept, recv, tso, now))
  {
    if ConnOf(l, id).Some? {
      HandledCancels(l, id, HandleGuest(ConnOf(l, id).value, h, payload, accept, recv, tso, now), now);
    } else {
      PutCancels(l, id, l.table.flows[id].value.(lastActive := now));
    }
  }

  lemma CompletionCancels(l: Loop, id: nat, outcome: Outcome, recv: Recv, tso: bool, now: nat)
    requires Safe(l)
    ensures Cancels(l, HandleCompletion(l, id, outcome, recv, tso, now))
  {
    if Occupied(l.table, id) {
      var f := l.table.flows[id].value;
      if f.closing || outcome.Cancelled? {
        FreeCancels(l, id);
      } else if f.tcp.Some? {
        PollCancels(l, id, outcome, recv, tso, now);
      } else {
        var answered := outcome.Ready? || (f.kind.Udp? && outcome.Error? && outcome.reported);
        var g := f.(lastActive := if answered then now else f.lastActive);
        PutCancels(l, id, g);
        PushCancels(PutFlow(l, id, g), id);
        CancelsTrans(l, PutFlow(l, id, g), PushOp(PutFlow(l, id, g), id));
      }
    }
  }

  lemma PollCancels(l: Loop, id: nat, outcome: Outcome, recv: Recv, tso: bool, now: nat)
    requires Safe(l) && ConnOf(l, id).Some?
    ensures Cancels(l, PollDone(l, id, outcome, recv, tso, now))
  {
    var c := ConnOf(l, id).value;
    if outcome.Ready? {
      HandledCancels(l, id, HandleReady(c, outcome.pollErr, outcome.pollHup, outcome.sockErr, recv, tso, now), now);
    } else {
      HandledCancels(l, id, Reset(c), l.table.flows[id].value.lastActive);
    }
  }

  lemma {:induction false} TicksCancel(l: Loop, ids: seq<nat>, recvs: seq<Recv>, tso: bool, now: nat)
    requires Safe(l)
    ensures Cancels(l, TickAll(l, ids, recvs, tso, now))
    decreases |ids|
  {
    if ids != [] {
      var recv := if recvs == [] then Again else recvs[0];
      var l', left := Tick(l, ids[0], recv, tso, now), if recvs == [] then [] else recvs[1..];
      TickSafe(l, ids[0], recv, tso, now);
      if ConnOf(l, ids[0]).Some? {
        HandledCancels(l, ids[0], HandleTimer(ConnOf(l, ids[0]).value, recv, tso, now),
                       l.table.flows[ids[0]].value.lastActive);
      }
      TicksCancel(l', ids[1..], left, tso, now);
      CancelsTrans(l, l', TickAll(l', ids[1..], left, tso, now));
    }
  }

  lemma {:induction false} RemovalsCancel(l: Loop, ids: seq<nat>)
    requires Safe(l)
    ensures Cancels(l, RemoveAll(l, ids))
    decreases |ids|
  {
    if ids != [] {
      var l' := RemoveFlow(l, ids[0]);
      RemoveFlowSafe(l, ids[0]);
      RemoveCancels(l, ids[0]);
      RemovalsCancel(l', ids[1..]);
      CancelsTrans(l, l', RemoveAll(l', ids[1..]));
    }
  }

  lemma TimerCancels(l: Loop, recvs: seq<Recv>, tso: bool, now: nat)
    requires Safe(l)
    ensures Cancels(l, HandleTimerEvent(l, recvs, tso, now))
  {
    var l1 := if now < RTO then l else TickAll(l, TcpTimerDue(l.table.flows, now - RTO), recvs, tso, now);
    if now >= RTO { TicksCancel(l, TcpTimerDue(l.table.flows, now - RTO), recvs, tso, now); }
    if now >= FLOW_EXPIRY {
      RemovalsCancel(l1, Expired(l1.table.flows, now - FLOW_EXPIRY));
      CancelsTrans(l, l1, HandleTimerEvent(l, recvs, tso, now));
    }
  }

  lemma SegmentCancels(l: Loop, tso: bool, e: LoopEvent)
    requires Safe(l) && e.Segment?
    ensures Cancels(l, StepLoop(l, tso, e))
  {
    var Segment(key, h, mss, wscale, payload, accept, recv, allowed, pushOk, now) := e;
    if key in l.table.byKey {
      SegmentToCancels(l, l.table.byKey[key], h, payload, accept, recv, tso, now);
    } else {
      OpenCancels(l, key, TcpKind, Some(Open(h.seqno, h.window, mss, wscale, now)), now, pushOk);
    }
  }

  lemma DatagramCancels(l: Loop, tso: bool, e: LoopEvent)
    requires Safe(l) && e.Datagram?
    ensures Cancels(l, StepLoop(l, tso, e))
  {
    if e.key in l.table.byKey {
      var id := l.table.byKey[e.key];
      PutCancels(l, id, l.table.flows[id].value.(lastActive := e.now));
    } else {
      OpenCancels(l, e.key, e.kind, None, e.now, e.pushOk);
    }
  }

  lemma CompletesCancels(l: Loop, tso: bool, e: LoopEvent)
    requires Safe(l) && e.Completes?
    ensures Cancels(l, StepLoop(l, tso, e))
  {
    if Possible(l, e) {
      var l1 := DropOp(l, e.op);
      DropOpSafe(l, e.op);
      CompletionCancels(l1, l.ops[e.op].slot, e.outcome, e.recv, tso, e.now);
      assert Cancels(l, l1);
      CancelsTrans(l, l1, StepLoop(l, tso, e));
    }
  }

  /** No event but the kernel's takes anything from the queue, and a flow that starts closing is cancelled. */
  lemma ClosingIsCancelled(l: Loop, tso: bool, e: LoopEvent)
    requires Safe(l) && !e.Takes?
    ensures Cancels(l, StepLoop(l, tso, e))
  {
    match e
    case Completes(_, _, _, _) => CompletesCancels(l, tso, e);
    case Segment(_, _, _, _, _, _, _, _, _, _) => SegmentCancels(l, tso, e);
    case Datagram(_, _, _, _, _) => DatagramCancels(l, tso, e);
    case Timer(recvs, now) => TimerCancels(l, recvs, tso, now);
  }
}
