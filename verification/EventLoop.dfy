/**
  The life of flows in the event loop: slots, buffers and the operations in flight in the kernel.

  Operations are named by the slot of their flow only, and complete in any order.  Each operation
  and each cancel request also carries here the number of the flow it was made for, so that it can be
  said which flow a completion or a cancel was meant to reach.
 */
module EventLoop {
  import opened Words
  import opened TcpModel
  import opened TcpInvariant
  import opened FlowTable

  /** Idle time after which a flow is reclaimed, in milliseconds. */
  const FLOW_EXPIRY: nat := 180_000

  /** A receive or poll on a flow's socket; `queued` until the kernel takes it from the submission queue. */
  datatype Op = Op(slot: nat, owner: nat, queued: bool, cancelled: bool)

  /** Entries of the submission queue, oldest first. */
  datatype Sqe = Submit(op: nat) | Cancel(slot: nat, owner: nat)

  datatype Loop = Loop(
    table: Table, pool: seq<nat>, tapBuf: nat, buffers: nat,
    ops: map<nat, Op>, sq: seq<Sqe>, nextOp: nat, nextOwner: nat)

  /** How an operation completes; `reported` errors of UDP sockets are passed on to the guest. */
  datatype Outcome = Cancelled | Error(reported: bool) | Ready(pollErr: bool, pollHup: bool, sockErr: bool)

  // ---------------------------------------------------------------------------------------------
  // Steps of the handlers
  // ---------------------------------------------------------------------------------------------

  /** Whether the program believes that an operation is pending for the flow. */
  predicate Pending(f: Flow) { f.tcp.None? || f.tcp.value.t.pollArmed }

  function PushOp(l: Loop, id: nat): Loop
    requires Occupied(l.table, id)
  {
    l.(ops := l.ops[l.nextOp := Op(id, l.table.flows[id].value.owner, true, false)],
       sq := l.sq + [Submit(l.nextOp)], nextOp := l.nextOp + 1)
  }

  function FreeSlot(l: Loop, id: nat): Loop {
    if !Occupied(l.table, id) then l
    else l.(table := FlowTable.Remove(l.table, id), pool := l.pool + [l.table.flows[id].value.buf])
  }

  function CloseSlot(l: Loop, id: nat): Loop
    requires Occupied(l.table, id)
  {
    l.(table := MarkClosing(l.table, id), sq := l.sq + [Cancel(id, l.table.flows[id].value.owner)])
  }

  /** With an operation pending, the slot and the buffer are only freed once that completes. */
  function RemoveFlow(l: Loop, id: nat): Loop {
    if Occupied(l.table, id) && Pending(l.table.flows[id].value) then CloseSlot(l, id) else FreeSlot(l, id)
  }

  function PutFlow(l: Loop, id: nat, f: Flow): Loop
    requires id < |l.table.flows|
  {
    l.(table := Update(l.table, id, f))
  }

  /** A new flow with the buffer on top of the free list. */
  function NewFlow(l: Loop, key: Key, kind: Kind, tcp: Option<Conn>, now: nat): FlowTable.Flow
    requires l.pool != []
  {
    FlowTable.Flow(key, kind, l.pool[|l.pool| - 1], now, tcp, false, l.nextOwner)
  }

  function AddFlow(l: Loop, f: FlowTable.Flow): Loop
    requires l.pool != [] && forall i :: 0 <= i < |l.table.free| ==> l.table.free[i] < |l.table.flows|
  {
    l.(table := Insert(l.table, f), pool := l.pool[..|l.pool| - 1], nextOwner := l.nextOwner + 1)
  }

  // ---------------------------------------------------------------------------------------------
  // Invariant
  // ---------------------------------------------------------------------------------------------

  /** Every operation belongs to the flow now in its slot, which believes in it; no slot has two. */
  ghost predicate OpsOk(ops: map<nat, Op>, t: Table, nextOp: nat) {
    && (forall a :: a in ops ==>
          && a < nextOp && Occupied(t, ops[a].slot)
          && t.flows[ops[a].slot].value.owner == ops[a].owner && Pending(t.flows[ops[a].slot].value)
          && (ops[a].cancelled ==> t.flows[ops[a].slot].value.closing))
    && (forall a, b :: a in ops && b in ops && ops[a].slot == ops[b].slot ==> a == b)
  }

  /** Queued operations are exactly those still to be submitted, each once. */
  ghost predicate QueueOk(sq: seq<Sqe>, ops: map<nat, Op>) {
    && (forall i :: 0 <= i < |sq| && sq[i].Submit? ==> sq[i].op in ops && ops[sq[i].op].queued)
    && (forall i, j :: 0 <= i < j < |sq| && sq[i].Submit? && sq[j].Submit? ==> sq[i].op != sq[j].op)
    && (forall a :: a in ops && ops[a].queued ==> Submit(a) in sq)
  }

  /**
    A cancel request meets only its own flow's operation: one of another flow in the same slot is
    still queued, behind it.  Its flow is closing, as long as it is there.
   */
  ghost predicate CancelsOk(sq: seq<Sqe>, ops: map<nat, Op>, t: Table, nextOwner: nat) {
    forall i :: 0 <= i < |sq| && sq[i].Cancel? ==>
      && sq[i].owner < nextOwner
      && (Occupied(t, sq[i].slot) && t.flows[sq[i].slot].value.owner == sq[i].owner ==>
            t.flows[sq[i].slot].value.closing)
      && forall a :: a in ops && ops[a].slot == sq[i].slot && ops[a].owner != sq[i].owner ==>
           ops[a].queued && Submit(a) !in sq[..i]
  }

  ghost predicate OwnersOk(t: Table, nextOwner: nat) {
    forall id: nat :: Occupied(t, id) ==> t.flows[id].value.owner < nextOwner
  }

  /** TCP flows carry a well-formed connection. */
  ghost predicate ConnsOk(t: Table) {
    forall id: nat :: Occupied(t, id) ==>
      && (t.flows[id].value.kind.TcpKind? <==> t.flows[id].value.tcp.Some?)
      && (t.flows[id].value.tcp.Some? ==> Inv(t.flows[id].value.tcp.value))
  }

  /** The free list, the tap's buffer and the flows' buffers are the whole pool, each buffer once. */
  ghost predicate BuffersOk(t: Table, pool: seq<nat>, tapBuf: nat, buffers: nat) {
    && (forall i :: 0 <= i < |pool| ==> pool[i] < buffers && pool[i] != tapBuf)
    && (forall i, j :: 0 <= i < j < |pool| ==> pool[i] != pool[j])
    && tapBuf < buffers
    && (forall id: nat :: Occupied(t, id) ==>
          t.flows[id].value.buf < buffers && t.flows[id].value.buf != tapBuf && t.flows[id].value.buf !in pool)
    && (forall i: nat, j: nat :: Occupied(t, i) && Occupied(t, j) && i != j ==>
          t.flows[i].value.buf != t.flows[j].value.buf)
    && (forall b: nat :: b < buffers ==> b == tapBuf || b in pool || Used(t, b))
  }

  ghost predicate Used(t: Table, b: nat) { exists id: nat :: Occupied(t, id) && t.flows[id].value.buf == b }

  function Count(flows: seq<Option<FlowTable.Flow>>): nat {
    if flows == [] then 0 else Count(flows[..|flows| - 1]) + if flows[|flows| - 1].Some? then 1 else 0
  }

  /** Conservation, in numbers: hence there are never more slots than buffers besides the tap's; ids fit 32 bits. */
  ghost predicate CountsOk(t: Table, pool: seq<nat>, buffers: nat) {
    && Count(t.flows) + |pool| + 1 == buffers
    && Count(t.flows) + |t.free| == |t.flows| < buffers < TWO32
  }

  ghost predicate SafeTable(l: Loop) {
    && TableOk(l.table) && OwnersOk(l.table, l.nextOwner) && ConnsOk(l.table)
    && BuffersOk(l.table, l.pool, l.tapBuf, l.buffers) && CountsOk(l.table, l.pool, l.buffers)
  }

  ghost predicate SafeOps(l: Loop) {
    OpsOk(l.ops, l.table, l.nextOp) && QueueOk(l.sq, l.ops) && CancelsOk(l.sq, l.ops, l.table, l.nextOwner)
  }

  ghost predicate Safe(l: Loop) { SafeTable(l) && SafeOps(l) }

  // ---------------------------------------------------------------------------------------------
  // Each step keeps the invariant
  // ---------------------------------------------------------------------------------------------

  ghost predicate NoOp(ops: map<nat, Op>, id: nat) { forall a :: a in ops ==> ops[a].slot != id }

  lemma PushOpsOk(ops: map<nat, Op>, t: Table, n: nat, id: nat)
    requires OpsOk(ops, t, n) && Occupied(t, id) && Pending(t.flows[id].value) && NoOp(ops, id)
    ensures OpsOk(ops[n := Op(id, t.flows[id].value.owner, true, false)], t, n + 1)
  {
  }

  lemma PushQueueOk(sq: seq<Sqe>, ops: map<nat, Op>, n: nat, op: Op)
    requires QueueOk(sq, ops) && n !in ops && op.queued
    ensures QueueOk(sq + [Submit(n)], ops[n := op])
  {
    var sq', ops' := sq + [Submit(n)], ops[n := op];
    forall a | a in ops' && ops'[a].queued ensures Submit(a) in sq' {
      if a == n { assert sq'[|sq|] == Submit(n); }
    }
  }

  lemma PushCancelsOk(sq: seq<Sqe>, ops: map<nat, Op>, t: Table, nextOwner: nat, n: nat, op: Op)
    requires CancelsOk(sq, ops, t, nextOwner) && QueueOk(sq, ops) && n !in ops && op.queued
    ensures CancelsOk(sq + [Submit(n)], ops[n := op], t, nextOwner)
  {
    var sq', ops' := sq + [Submit(n)], ops[n := op];
    forall i | 0 <= i < |sq'| && sq'[i].Cancel?
      ensures forall a :: a in ops' && ops'[a].slot == sq'[i].slot && ops'[a].owner != sq'[i].owner ==>
                ops'[a].queued && Submit(a) !in sq'[..i]
    {
      assert sq'[..i] == sq[..i];
      assert Submit(n) !in sq[..i];
    }
  }

  lemma PushOpSafe(l: Loop, id: nat)
    requires Safe(l) && Occupied(l.table, id) && Pending(l.table.flows[id].value) && NoOp(l.ops, id)
    ensures Safe(PushOp(l, id))
  {
    var op := Op(id, l.table.flows[id].value.owner, true, false);
    PushOpsOk(l.ops, l.table, l.nextOp, id);
    PushQueueOk(l.sq, l.ops, l.nextOp, op);
    PushCancelsOk(l.sq, l.ops, l.table, l.nextOwner, l.nextOp, op);
  }

  // Changes to one slot.

  ghost predicate OnlySlot(t: Table, t': Table, id: nat) {
    |t'.flows| == |t.flows| && forall j :: 0 <= j < |t.flows| && j != id ==> t'.flows[j] == t.flows[j]
  }

  /** The slot keeps its flow, with key, buffer and owner; a closing flow stays closing. */
  ghost predicate SameFlow(t: Table, t': Table, id: nat) {
    && OnlySlot(t, t', id) && Occupied(t, id) && Occupied(t', id)
    && t'.flows[id].value.owner == t.flows[id].value.owner && t'.flows[id].value.buf == t.flows[id].value.buf
    && (t.flows[id].value.closing ==> t'.flows[id].value.closing)
  }

  ghost predicate ConnOk(f: FlowTable.Flow) {
    (f.kind.TcpKind? <==> f.tcp.Some?) && (f.tcp.Some? ==> Inv(f.tcp.value))
  }

  lemma SameFlowOps(ops: map<nat, Op>, t: Table, t': Table, n: nat, id: nat)
    requires OpsOk(ops, t, n) && SameFlow(t, t', id) && (NoOp(ops, id) || Pending(t'.flows[id].value))
    ensures OpsOk(ops, t', n)
  {
  }

  lemma SameFlowCancels(sq: seq<Sqe>, ops: map<nat, Op>, t: Table, t': Table, nextOwner: nat, id: nat)
    requires CancelsOk(sq, ops, t, nextOwner) && SameFlow(t, t', id)
    ensures CancelsOk(sq, ops, t', nextOwner)
  {
  }

  lemma SameFlowBuffers(t: Table, t': Table, pool: seq<nat>, tapBuf: nat, buffers: nat, id: nat)
    requires BuffersOk(t, pool, tapBuf, buffers) && SameFlow(t, t', id)
    ensures BuffersOk(t', pool, tapBuf, buffers)
  {
    forall b: nat | b < buffers && Used(t, b) ensures Used(t', b) {
      var j: nat :| Occupied(t, j) && t.flows[j].value.buf == b;
      assert Occupied(t', j) && t'.flows[j].value.buf == b;
    }
    assert forall j: nat :: Occupied(t', j) <==> Occupied(t, j);
  }

  lemma {:induction false} CountUpdate(flows: seq<Option<FlowTable.Flow>>, id: nat, x: Option<FlowTable.Flow>)
    requires id < |flows|
    ensures Count(flows[id := x]) == Count(flows) - (if flows[id].Some? then 1 else 0) + if x.Some? then 1 else 0
    decreases |flows|
  {
    var n := |flows| - 1;
    if id < n {
      CountUpdate(flows[..n], id, x);
      assert flows[id := x][..n] == flows[..n][id := x];
    } else {
      assert flows[id := x][..n] == flows[..n];
    }
  }

  lemma SameFlowSafe(l: Loop, t': Table, id: nat)
    requires Safe(l) && TableOk(t') && SameFlow(l.table, t', id) && t'.free == l.table.free
    requires ConnOk(t'.flows[id].value) && (NoOp(l.ops, id) || Pending(t'.flows[id].value))
    requires t'.flows == l.table.flows[id := t'.flows[id]]
    ensures Safe(l.(table := t'))
  {
    SameFlowOps(l.ops, l.table, t', l.nextOp, id);
    SameFlowCancels(l.sq, l.ops, l.table, t', l.nextOwner, id);
    SameFlowBuffers(l.table, t', l.pool, l.tapBuf, l.buffers, id);
    CountUpdate(l.table.flows, id, t'.flows[id]);
    SameFlowRest(l.table, t', l.nextOwner, id);
  }

  lemma SameFlowRest(t: Table, t': Table, nextOwner: nat, id: nat)
    requires OwnersOk(t, nextOwner) && ConnsOk(t) && SameFlow(t, t', id) && ConnOk(t'.flows[id].value)
    ensures OwnersOk(t', nextOwner) && ConnsOk(t')
  {
    forall j: nat | Occupied(t', j) ensures t'.flows[j].value.owner < nextOwner && ConnOk(t'.flows[j].value) {
      assert Occupied(t, j);
    }
  }

  lemma PutFlowSafe(l: Loop, id: nat, f: FlowTable.Flow)
    requires Safe(l) && Occupied(l.table, id) && ConnOk(f) && (NoOp(l.ops, id) || Pending(f))
    requires var g := l.table.flows[id].value;
             f.key == g.key && f.closing == g.closing && f.owner == g.owner && f.buf == g.buf
    ensures Safe(PutFlow(l, id, f))
  {
    UpdateKeeps(l.table, id, f);
    SameFlowSafe(l, Update(l.table, id, f), id);
  }

  /** A cancel request for the flow now in the slot. */
  lemma PushCancelSafe(l: Loop, id: nat)
    requires Safe(l) && Occupied(l.table, id) && l.table.flows[id].value.closing
    ensures Safe(l.(sq := l.sq + [Cancel(id, l.table.flows[id].value.owner)]))
  {
    PushCancelOk(l.sq, l.ops, l.table, l.nextOwner, l.nextOp, id);
    var sq' := l.sq + [Cancel(id, l.table.flows[id].value.owner)];
    assert QueueOk(sq', l.ops);
  }

  lemma PushCancelOk(sq: seq<Sqe>, ops: map<nat, Op>, t: Table, nextOwner: nat, nextOp: nat, id: nat)
    requires CancelsOk(sq, ops, t, nextOwner) && OpsOk(ops, t, nextOp) && OwnersOk(t, nextOwner)
    requires Occupied(t, id) && t.flows[id].value.closing
    ensures CancelsOk(sq + [Cancel(id, t.flows[id].value.owner)], ops, t, nextOwner)
  {
    var sq' := sq + [Cancel(id, t.flows[id].value.owner)];
    forall i | 0 <= i < |sq'| && sq'[i].Cancel?
      ensures forall a :: a in ops && ops[a].slot == sq'[i].slot && ops[a].owner != sq'[i].owner ==>
                ops[a].queued && Submit(a) !in sq'[..i]
    {
      if i < |sq| { assert sq'[..i] == sq[..i]; }
    }
  }

  lemma CloseSlotSafe(l: Loop, id: nat)
    requires Safe(l) && Occupied(l.table, id) && Pending(l.table.flows[id].value)
    ensures Safe(CloseSlot(l, id))
  {
    MarkClosingKeeps(l.table, id);
    var l1 := l.(table := MarkClosing(l.table, id));
    SameFlowSafe(l, l1.table, id);
    PushCancelSafe(l1, id);
  }

  // Emptying a slot.

  lemma EmptySlotOps(ops: map<nat, Op>, t: Table, t': Table, n: nat, id: nat)
    requires OpsOk(ops, t, n) && OnlySlot(t, t', id) && NoOp(ops, id)
    ensures OpsOk(ops, t', n)
  {
  }

  lemma EmptySlotCancels(sq: seq<Sqe>, ops: map<nat, Op>, t: Table, t': Table, nextOwner: nat, id: nat)
    requires CancelsOk(sq, ops, t, nextOwner) && OnlySlot(t, t', id) && !Occupied(t', id)
    ensures CancelsOk(sq, ops, t', nextOwner)
  {
  }

  lemma EmptySlotBuffers(t: Table, t': Table, pool: seq<nat>, tapBuf: nat, buffers: nat, id: nat)
    requires BuffersOk(t, pool, tapBuf, buffers) && OnlySlot(t, t', id) && Occupied(t, id) && !Occupied(t', id)
    ensures BuffersOk(t', pool + [t.flows[id].value.buf], tapBuf, buffers)
  {
    var pool' := pool + [t.flows[id].value.buf];
    forall j: nat | Occupied(t', j) ensures Occupied(t, j) && t'.flows[j] == t.flows[j] && j != id {
    }
    forall b: nat | b < buffers && Used(t, b) ensures b in pool' || Used(t', b) {
      var j: nat :| Occupied(t, j) && t.flows[j].value.buf == b;
      if j != id { assert Occupied(t', j) && t'.flows[j].value.buf == b; }
    }
  }

  lemma EmptySlotRest(t: Table, t': Table, nextOwner: nat, id: nat)
    requires OwnersOk(t, nextOwner) && ConnsOk(t) && OnlySlot(t, t', id) && !Occupied(t', id)
    ensures OwnersOk(t', nextOwner) && ConnsOk(t')
  {
    forall j: nat | Occupied(t', j) ensures t'.flows[j].value.owner < nextOwner && ConnOk(t'.flows[j].value) {
      assert Occupied(t, j);
    }
  }

  lemma FreeSlotSafe(l: Loop, id: nat)
    requires Safe(l) && NoOp(l.ops, id)
    ensures Safe(FreeSlot(l, id)) && !Occupied(FreeSlot(l, id).table, id)
  {
    if Occupied(l.table, id) {
      var t' := FlowTable.Remove(l.table, id);
      RemoveKeeps(l.table, id);
      EmptySlotOps(l.ops, l.table, t', l.nextOp, id);
      EmptySlotCancels(l.sq, l.ops, l.table, t', l.nextOwner, id);
      EmptySlotBuffers(l.table, t', l.pool, l.tapBuf, l.buffers, id);
      EmptySlotRest(l.table, t', l.nextOwner, id);
      CountUpdate(l.table.flows, id, None);
    }
  }

  lemma RemoveFlowSafe(l: Loop, id: nat)
    requires Safe(l)
    ensures Safe(RemoveFlow(l, id))
  {
    if Occupied(l.table, id) && Pending(l.table.flows[id].value) {
      CloseSlotSafe(l, id);
    } else {
      FreeSlotSafe(l, id);
    }
  }

  // Filling a slot.

  ghost predicate Filled(t: Table, t': Table, id: nat) {
    && !Occupied(t, id) && Occupied(t', id) && id <= |t.flows| && |t'.flows| == Max(|t.flows|, id + 1)
    && forall j :: 0 <= j < |t.flows| && j != id ==> t'.flows[j] == t.flows[j]
  }

  lemma FillSlotOps(ops: map<nat, Op>, t: Table, t': Table, n: nat, id: nat)
    requires OpsOk(ops, t, n) && Filled(t, t', id)
    ensures OpsOk(ops, t', n) && NoOp(ops, id)
  {
  }

  lemma FillSlotCancels(sq: seq<Sqe>, ops: map<nat, Op>, t: Table, t': Table, nextOwner: nat, id: nat)
    requires CancelsOk(sq, ops, t, nextOwner) && Filled(t, t', id) && t'.flows[id].value.owner == nextOwner
    ensures CancelsOk(sq, ops, t', nextOwner + 1)
  {
  }

  lemma FillSlotBuffers(t: Table, t': Table, pool: seq<nat>, tapBuf: nat, buffers: nat, id: nat)
    requires BuffersOk(t, pool, tapBuf, buffers) && Filled(t, t', id) && pool != []
    requires t'.flows[id].value.buf == pool[|pool| - 1]
    ensures BuffersOk(t', pool[..|pool| - 1], tapBuf, buffers)
  {
    var top := |pool| - 1;
    forall j: nat | Occupied(t', j) && j != id ensures Occupied(t, j) && t'.flows[j] == t.flows[j] {
    }
    forall b: nat | b < buffers && b != tapBuf && b !in pool[..top] ensures Used(t', b) {
      if b in pool {
        assert b == pool[top] && Occupied(t', id);
      } else {
        var j: nat :| Occupied(t, j) && t.flows[j].value.buf == b;
        assert Occupied(t', j) && t'.flows[j].value.buf == b;
      }
    }
  }

  lemma FillSlotRest(t: Table, t': Table, nextOwner: nat, id: nat)
    requires OwnersOk(t, nextOwner) && ConnsOk(t) && Filled(t, t', id)
    requires t'.flows[id].value.owner == nextOwner && ConnOk(t'.flows[id].value)
    ensures OwnersOk(t', nextOwner + 1) && ConnsOk(t')
  {
    forall j: nat | Occupied(t', j) ensures t'.flows[j].value.owner < nextOwner + 1 && ConnOk(t'.flows[j].value) {
      if j != id { assert Occupied(t, j); }
    }
  }

  lemma InsertCount(t: Table, f: FlowTable.Flow)
    requires FreeOk(t)
    ensures var t' := Insert(t, f);
            && Filled(t, t', NextSlot(t)) && t'.flows[NextSlot(t)] == Some(f)
            && Count(t'.flows) == Count(t.flows) + 1
            && |t'.flows| - |t'.free| == |t.flows| - |t.free| + 1
            && (t.free != [] ==> |t'.flows| == |t.flows|)
  {
    if t.free == [] {
      assert (t.flows + [Some(f)])[..|t.flows|] == t.flows;
    } else {
      CountUpdate(t.flows, NextSlot(t), Some(f));
    }
  }

  lemma InsertCounts(t: Table, f: FlowTable.Flow, pool: seq<nat>, buffers: nat)
    requires FreeOk(t) && CountsOk(t, pool, buffers) && pool != []
    ensures CountsOk(Insert(t, f), pool[..|pool| - 1], buffers)
  {
    InsertCount(t, f);
  }

  lemma InsertBuffers(t: Table, f: FlowTable.Flow, pool: seq<nat>, tapBuf: nat, buffers: nat)
    requires FreeOk(t) && BuffersOk(t, pool, tapBuf, buffers) && pool != [] && f.buf == pool[|pool| - 1]
    ensures BuffersOk(Insert(t, f), pool[..|pool| - 1], tapBuf, buffers)
  {
    InsertCount(t, f);
    FillSlotBuffers(t, Insert(t, f), pool, tapBuf, buffers, NextSlot(t));
  }

  lemma InsertRest(t: Table, f: FlowTable.Flow, nextOwner: nat)
    requires FreeOk(t) && OwnersOk(t, nextOwner) && ConnsOk(t) && f.owner == nextOwner && ConnOk(f)
    ensures OwnersOk(Insert(t, f), nextOwner + 1) && ConnsOk(Insert(t, f))
  {
    InsertCount(t, f);
    FillSlotRest(t, Insert(t, f), nextOwner, NextSlot(t));
  }

  lemma AddFlowTable(l: Loop, f: FlowTable.Flow)
    requires SafeTable(l) && l.pool != [] && f.key !in l.table.byKey && ConnOk(f)
    requires f.buf == l.pool[|l.pool| - 1] && f.owner == l.nextOwner && !f.closing
    ensures SafeTable(AddFlow(l, f))
  {
    InsertKeeps(l.table, f);
    InsertCounts(l.table, f, l.pool, l.buffers);
    InsertBuffers(l.table, f, l.pool, l.tapBuf, l.buffers);
    InsertRest(l.table, f, l.nextOwner);
  }

  lemma AddFlowOps(l: Loop, f: FlowTable.Flow)
    requires FreeOk(l.table) && SafeOps(l) && l.pool != [] && f.owner == l.nextOwner
    ensures SafeOps(AddFlow(l, f)) && NoOp(AddFlow(l, f).ops, NextSlot(l.table))
  {
    var t', id := Insert(l.table, f), NextSlot(l.table);
    InsertCount(l.table, f);
    FillSlotOps(l.ops, l.table, t', l.nextOp, id);
    FillSlotCancels(l.sq, l.ops, l.table, t', l.nextOwner, id);
  }

  lemma AddFlowSafe(l: Loop, f: FlowTable.Flow)
    requires Safe(l) && l.pool != [] && f.key !in l.table.byKey && ConnOk(f)
    requires f.buf == l.pool[|l.pool| - 1] && f.owner == l.nextOwner && !f.closing
    ensures Safe(AddFlow(l, f)) && NoOp(AddFlow(l, f).ops, NextSlot(l.table))
    ensures Occupied(AddFlow(l, f).table, NextSlot(l.table)) && AddFlow(l, f).table.flows[NextSlot(l.table)] == Some(f)
  {
    AddFlowTable(l, f);
    AddFlowOps(l, f);
    InsertCount(l.table, f);
  }

  // ---------------------------------------------------------------------------------------------
  // The kernel
  // ---------------------------------------------------------------------------------------------

  /** A cancel request marks the operations in the kernel that carry its slot number. */
  function Marked(ops: map<nat, Op>, slot: nat): map<nat, Op> {
    map a | a in ops :: if ops[a].slot == slot && !ops[a].queued then ops[a].(cancelled := true) else ops[a]
  }

  /** The kernel takes the oldest entry of the submission queue; a cancel request may come too late. */
  function KernelTakes(l: Loop, inTime: bool): Loop
    requires QueueOk(l.sq, l.ops)
  {
    if l.sq == [] then l
    else
      match l.sq[0]
      case Submit(a) => l.(ops := l.ops[a := l.ops[a].(queued := false)], sq := l.sq[1..])
      case Cancel(slot, _) => l.(ops := if inTime then Marked(l.ops, slot) else l.ops, sq := l.sq[1..])
  }

  /** The cancel request at the head of the queue reaches only operations of the flow it was made for. */
  lemma CancelReachesOwner(l: Loop, a: nat)
    requires Safe(l) && l.sq != [] && l.sq[0].Cancel? && a in l.ops
    requires l.ops[a].slot == l.sq[0].slot && !l.ops[a].queued
    ensures l.ops[a].owner == l.sq[0].owner && l.table.flows[l.ops[a].slot].value.closing
  {
  }

  lemma TakeSubmitQueue(sq: seq<Sqe>, ops: map<nat, Op>)
    requires QueueOk(sq, ops) && sq != [] && sq[0].Submit?
    ensures QueueOk(sq[1..], ops[sq[0].op := ops[sq[0].op].(queued := false)])
  {
    forall i | 0 <= i < |sq[1..]| && sq[1..][i].Submit? ensures sq[1..][i].op != sq[0].op && sq[1..][i].op in ops {
      assert sq[1..][i] == sq[i + 1];
    }
    forall a | a in ops && ops[a].queued && a != sq[0].op ensures Submit(a) in sq[1..] {
      InTail(sq, Submit(a));
    }
  }

  lemma InTail(sq: seq<Sqe>, x: Sqe)
    requires x in sq && sq[0] != x
    ensures x in sq[1..]
  {
    var i :| 0 <= i < |sq| && sq[i] == x;
    assert sq[1..][i - 1] == x;
  }

  lemma TakeSubmitCancels(sq: seq<Sqe>, ops: map<nat, Op>, t: Table, nextOwner: nat)
    requires QueueOk(sq, ops) && CancelsOk(sq, ops, t, nextOwner) && sq != [] && sq[0].Submit?
    ensures CancelsOk(sq[1..], ops[sq[0].op := ops[sq[0].op].(queued := false)], t, nextOwner)
  {
    var sq', ops' := sq[1..], ops[sq[0].op := ops[sq[0].op].(queued := false)];
    forall i | 0 <= i < |sq'| && sq'[i].Cancel?
      ensures forall a :: a in ops' && ops'[a].slot == sq'[i].slot && ops'[a].owner != sq'[i].owner ==>
                ops'[a].queued && Submit(a) !in sq'[..i]
    {
      assert sq'[i] == sq[i + 1] && sq[..i + 1] == [sq[0]] + sq'[..i];
      assert Submit(sq[0].op) in sq[..i + 1];
    }
    assert forall i :: 0 <= i < |sq'| ==> sq'[i] == sq[i + 1];
  }

  lemma TakeSubmitOps(ops: map<nat, Op>, t: Table, n: nat, a: nat)
    requires OpsOk(ops, t, n) && a in ops
    ensures OpsOk(ops[a := ops[a].(queued := false)], t, n)
  {
  }

  lemma TakeCancelQueue(sq: seq<Sqe>, ops: map<nat, Op>, ops': map<nat, Op>, t: Table, nextOwner: nat)
    requires QueueOk(sq, ops) && CancelsOk(sq, ops, t, nextOwner) && sq != [] && sq[0].Cancel?
    requires ops'.Keys == ops.Keys
    requires forall a :: a in ops ==>
               ops'[a].slot == ops[a].slot && ops'[a].owner == ops[a].owner && ops'[a].queued == ops[a].queued
    ensures QueueOk(sq[1..], ops') && CancelsOk(sq[1..], ops', t, nextOwner)
  {
    var sq' := sq[1..];
    assert forall i :: 0 <= i < |sq'| ==> sq'[i] == sq[i + 1];
    forall i | 0 <= i < |sq'| && sq'[i].Cancel?
      ensures forall a :: a in ops' && ops'[a].slot == sq'[i].slot && ops'[a].owner != sq'[i].owner ==>
                ops'[a].queued && Submit(a) !in sq'[..i]
    {
      assert sq'[i] == sq[i + 1] && sq[..i + 1] == [sq[0]] + sq'[..i];
    }
    forall a | a in ops' && ops'[a].queued ensures Submit(a) in sq' {
      InTail(sq, Submit(a));
    }
  }

  lemma MarkedOps(ops: map<nat, Op>, t: Table, n: nat, slot: nat)
    requires OpsOk(ops, t, n)
    requires forall a :: a in ops && ops[a].slot == slot && !ops[a].queued ==> t.flows[slot].value.closing
    ensures OpsOk(Marked(ops, slot), t, n)
  {
  }

  lemma KernelTakesSafe(l: Loop, inTime: bool)
    requires Safe(l)
    ensures Safe(KernelTakes(l, inTime))
  {
    if l.sq != [] {
      match l.sq[0]
      case Submit(a) =>
        TakeSubmitQueue(l.sq, l.ops);
        TakeSubmitCancels(l.sq, l.ops, l.table, l.nextOwner);
        TakeSubmitOps(l.ops, l.table, l.nextOp, a);
      case Cancel(slot, _) =>
        forall a | a in l.ops && l.ops[a].slot == slot && !l.ops[a].queued
          ensures l.table.flows[slot].value.closing
        {
          CancelReachesOwner(l, a);
        }
        MarkedOps(l.ops, l.table, l.nextOp, slot);
        TakeCancelQueue(l.sq, l.ops, KernelTakes(l, inTime).ops, l.table, l.nextOwner);
    }
  }

  /** An operation in the kernel completes and is gone. */
  function DropOp(l: Loop, a: nat): Loop { l.(ops := l.ops - {a}) }

  lemma DropOpSafe(l: Loop, a: nat)
    requires Safe(l) && a in l.ops && !l.ops[a].queued
    ensures Safe(DropOp(l, a)) && NoOp(DropOp(l, a).ops, l.ops[a].slot)
  {
  }
}
