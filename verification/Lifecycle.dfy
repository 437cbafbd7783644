/**
  The buffer pool, the flow table and the event loop as objects updated in place.  All buffers are parts
  of one memory: a TCP flow's ring is the part that its buffer number selects, and the kernel receives
  into such parts while operations are in flight.  `Valid()` says that nobody ever writes over a byte
  that somebody else still holds.
 */
module Lifecycle {
  import opened Words
  import opened Buffers
  import opened TcpModel
  import opened TcpInvariant
  import opened Ring
  import opened TcpFlow
  import opened FlowTable
  import opened EventLoop
  import opened Dispatch

  /** Where the payload space of buffer `b` starts. */
  function Base(b: nat): nat { b * BUF_SIZE + HEADROOM }

  /** Nothing changed but buffer `b`. */
  ghost predicate OnlyBuffer(mem: seq<byte>, mem': seq<byte>, b: nat) {
    && |mem'| == |mem|
    && forall i :: 0 <= i < |mem| && !(b * BUF_SIZE <= i < (b + 1) * BUF_SIZE) ==> mem'[i] == mem[i]
  }

  lemma WindowInBuffer(mem: seq<byte>, mem': seq<byte>, b: nat)
    requires OnlyWindow(mem, mem', Base(b))
    ensures OnlyBuffer(mem, mem', b)
  {
  }

  /** What happens to one buffer leaves the rings in the others alone. */
  lemma OtherRing(mem: seq<byte>, mem': seq<byte>, b: nat, other: nat)
    requires OnlyBuffer(mem, mem', b) && b != other && (other + 1) * BUF_SIZE <= |mem|
    ensures Base(other) + FRAME <= |mem| && Window(mem', Base(other)) == Window(mem, Base(other))
  {
  }

  /** Fixed pool of equally sized buffers; the free list is a stack. */
  class Pool {
    const mem: array<byte>
    var free: seq<nat>

    constructor (count: nat)
      ensures mem.Length == count * BUF_SIZE && fresh(mem)
      ensures |free| == count && forall i :: 0 <= i < count ==> free[i] == i
    {
      mem := new byte[count * BUF_SIZE](_ => 0);
      free := seq(count, i requires 0 <= i => i);
    }

    method Alloc() returns (b: Option<nat>)
      modifies this
      ensures old(free) == [] ==> b == None && free == []
      ensures old(free) != [] ==> b.Some? && old(free) == free + [b.value]
    {
      if free == [] {
        return None;
      }
      b := Some(free[|free| - 1]);
      free := free[..|free| - 1];
    }

    method Free(b: nat)
      modifies this
      ensures free == old(free) + [b]
    {
      free := free + [b];
    }
  }

  /** A flow as the table keeps it: the connection is an object of its own. */
  datatype Entry = Entry(
    key: Key, kind: Kind, buf: nat, lastActive: nat, tcp: Option<Connection>, closing: bool, owner: nat)

  ghost function Parts(e: Entry): set<object> {
    if e.tcp.Some? then {e.tcp.value, e.tcp.value.buf} else {}
  }

  ghost function ConnsIn(e: Entry): set<Connection> { if e.tcp.Some? then {e.tcp.value} else {} }

  ghost function RingsIn(e: Entry): set<RingBuffer> { if e.tcp.Some? then {e.tcp.value.buf} else {} }

  ghost function ViewOf(e: Entry): FlowTable.Flow
    reads Parts(e)
  {
    FlowTable.Flow(e.key, e.kind, e.buf, e.lastActive, if e.tcp.Some? then Some(e.tcp.value.View()) else None,
                   e.closing, e.owner)
  }

  ghost function PartsIn(slot: Option<Entry>): set<object> { if slot.Some? then Parts(slot.value) else {} }

  ghost predicate Known(slot: Option<Entry>, conns: set<Connection>, rings: set<RingBuffer>) {
    slot.Some? && slot.value.tcp.Some? ==> slot.value.tcp.value in conns && slot.value.tcp.value.buf in rings
  }

  ghost predicate AllKnown(flows: seq<Option<Entry>>, conns: set<Connection>, rings: set<RingBuffer>) {
    forall i: nat :: i < |flows| ==> Known(flows[i], conns, rings)
  }

  ghost predicate AllDistinct(flows: seq<Option<Entry>>) {
    forall i: nat, j: nat :: i < j < |flows| ==> PartsIn(flows[i]) !! PartsIn(flows[j])
  }

  /** A flow with objects of its own joins the others. */
  lemma Joins(
    flows: seq<Option<Entry>>, flows': seq<Option<Entry>>, id: nat, e: Entry, conns: set<Connection>,
    rings: set<RingBuffer>)
    requires AllKnown(flows, conns, rings) && AllDistinct(flows)
    requires e.tcp.Some? ==> e.tcp.value !in conns && e.tcp.value.buf !in rings
    requires id <= |flows| && |flows'| == Max(|flows|, id + 1) && flows'[id] == Some(e)
    requires forall i :: 0 <= i < |flows| && i != id ==> flows'[i] == flows[i]
    ensures AllDistinct(flows')
    ensures AllKnown(flows', conns + ConnsIn(e), rings + RingsIn(e))
  {
    forall i: nat | i < |flows'| && i != id ensures PartsIn(flows'[i]) !! PartsIn(flows'[id]) {
      assert Known(flows[i], conns, rings);
    }
  }

  /** What a slot holds stands for what the table has there. */
  ghost predicate Stands(slot: Option<Entry>, f: Option<FlowTable.Flow>)
    reads PartsIn(slot)
  {
    (slot.Some? <==> f.Some?) && (slot.Some? ==> ViewOf(slot.value) == f.value)
  }

  /** The same, but the connection may have moved on. */
  ghost predicate Moved(slot: Option<Entry>, f: Option<FlowTable.Flow>)
    reads PartsIn(slot)
  {
    && slot.Some? && f.Some?
    && var v := ViewOf(slot.value); v == f.value.(tcp := v.tcp) && (v.tcp.Some? <==> f.value.tcp.Some?)
  }

  /** Flows indexed by slot and by key; `table` is what they stand for. */
  class Flows {
    var flows: seq<Option<Entry>>
    var free: seq<nat>
    var byKey: map<Key, nat>
    ghost var table: Table
    /** The connections and their rings. */
    ghost var conns: set<Connection>
    ghost var rings: set<RingBuffer>

    ghost predicate LinkedBut(x: int)
      reads this, conns, rings
    {
      && |flows| == |table.flows| && free == table.free && byKey == table.byKey
      && AllKnown(flows, conns, rings)
      && (forall i: nat :: i < |flows| && i != x ==> Stands(flows[i], table.flows[i]))
    }

    ghost predicate SameObjects(oldConns: set<Connection>, oldRings: set<RingBuffer>)
      reads this
    {
      conns == oldConns && rings == oldRings
    }

    /** No two flows share a connection or a ring. */
    ghost predicate Distinct()
      reads this
    {
      AllDistinct(flows)
    }

    ghost predicate Valid()
      reads this, conns, rings
    {
      LinkedBut(-1) && Distinct()
    }

    constructor ()
      ensures Valid() && table == Table([], [], map[]) && conns == {} && rings == {}
    {
      flows, free, byKey := [], [], map[];
      table, conns, rings := Table([], [], map[]), {}, {};
    }

    method Place(e: Entry) returns (id: nat)
      requires forall i :: 0 <= i < |free| ==> free[i] < |flows|
      modifies this`flows, this`free, this`byKey
      ensures id == if old(free) == [] then |old(flows)| else old(free)[|old(free)| - 1]
      ensures flows == if old(free) == [] then old(flows) + [Some(e)] else old(flows)[id := Some(e)]
      ensures free == if old(free) == [] then [] else old(free)[..|old(free)| - 1]
      ensures byKey == old(byKey)[e.key := id]
    {
      if free == [] {
        flows := flows + [Some(e)];
        id := |flows| - 1;
      } else {
        id := free[|free| - 1];
        free := free[..|free| - 1];
        flows := flows[id := Some(e)];
      }
      byKey := byKey[e.key := id];
    }

    /** A new flow goes to the slot freed last, or to a new one. */
    method Insert(e: Entry) returns (id: nat)
      requires Valid() && (e.tcp.Some? ==> e.tcp.value !in conns && e.tcp.value.buf !in rings)
      requires forall i :: 0 <= i < |free| ==> free[i] < |flows|
      modifies this
      ensures Valid()
      ensures conns == old(conns) + ConnsIn(e)
      ensures rings == old(rings) + RingsIn(e)
      ensures id == NextSlot(old(table)) && table == FlowTable.Insert(old(table), ViewOf(e))
      ensures id < |flows| == Max(|old(flows)|, id + 1) && flows[id] == Some(e)
      ensures forall i :: 0 <= i < |old(flows)| && i != id ==> flows[i] == old(flows)[i]
    {
      ghost var before, was := flows, table;
      id := Place(e);
      Register(e, id, before, was);
    }

    /** The table follows, and the flow's objects are known from now on. */
    ghost method Register(e: Entry, id: nat, before: seq<Option<Entry>>, was: Table)
      requires AllKnown(before, conns, rings) && AllDistinct(before) && |before| == |was.flows| && table == was
      requires e.tcp.Some? ==> e.tcp.value !in conns && e.tcp.value.buf !in rings
      requires forall i: nat :: i < |before| ==> Stands(before[i], was.flows[i])
      requires forall i :: 0 <= i < |was.free| ==> was.free[i] < |before|
      requires id == NextSlot(was) && free == FlowTable.Insert(was, ViewOf(e)).free && byKey == was.byKey[e.key := id]
      requires id <= |before| && |flows| == Max(|before|, id + 1) && flows[id] == Some(e)
      requires forall i :: 0 <= i < |before| && i != id ==> flows[i] == before[i]
      modifies this`table, this`conns, this`rings
      ensures Valid() && table == FlowTable.Insert(was, ViewOf(e))
      ensures conns == old(conns) + ConnsIn(e)
      ensures rings == old(rings) + RingsIn(e)
    {
      Joins(before, flows, id, e, conns, rings);
      table := FlowTable.Insert(table, ViewOf(e));
      conns := conns + ConnsIn(e);
      rings := rings + RingsIn(e);
    }

    /** Drop the flow and hand back its buffer; a newer flow under its key stays where it is. */
    method Remove(id: nat) returns (b: Option<nat>)
      requires Valid()
      modifies this
      ensures Valid() && SameObjects(old(conns), old(rings)) && table == FlowTable.Remove(old(table), id)
      ensures b == if Occupied(old(table), id) then Some(old(table).flows[id].value.buf) else None
      ensures flows == if b.Some? then old(flows)[id := None] else old(flows)
    {
      if id >= |flows| || flows[id].None? {
        return None;
      }
      assert Stands(flows[id], table.flows[id]);
      var e := flows[id].value;
      flows := flows[id := None];
      if e.key in byKey && byKey[e.key] == id {
        byKey := byKey - {e.key};
      }
      free := free + [id];
      table := FlowTable.Remove(table, id);
      b := Some(e.buf);
    }

    /** Take the flow out of the index; it keeps its slot, its buffer and its connection. */
    method MarkClosing(id: nat)
      requires Valid()
      modifies this
      ensures Valid() && SameObjects(old(conns), old(rings)) && table == FlowTable.MarkClosing(old(table), id)
      ensures |flows| == |old(flows)| && forall i :: 0 <= i < |flows| && i != id ==> flows[i] == old(flows)[i]
      ensures Occupied(old(table), id) ==>
                old(flows)[id].Some? && flows[id] == Some(old(flows)[id].value.(closing := true))
    {
      if id < |flows| && flows[id].Some? {
        assert Stands(flows[id], table.flows[id]);
        var e := flows[id].value;
        flows := flows[id := Some(e.(closing := true))];
        if e.key in byKey && byKey[e.key] == id {
          byKey := byKey - {e.key};
        }
        table := FlowTable.MarkClosing(table, id);
      }
    }

    /** The table catches up with the connection in slot `id`, which was active at `lastActive`. */
    method Touch(id: nat, lastActive: nat)
      requires LinkedBut(id) && Distinct() && id < |flows| && Moved(flows[id], table.flows[id])
      modifies this
      ensures Valid() && SameObjects(old(conns), old(rings))
      ensures flows == old(flows)[id := Some(old(flows)[id].value.(lastActive := lastActive))]
      ensures table == Update(old(table), id, old(ViewOf(flows[id].value)).(lastActive := lastActive))
    {
      var e := flows[id].value.(lastActive := lastActive);
      flows := flows[id := Some(e)];
      table := Update(table, id, ViewOf(e));
    }
  }

  class Engine {
    const flows: Flows
    const pool: Pool
    const tapBuf: nat
    const buffers: nat
    const tso: bool
    var ops: map<nat, Op>
    var sq: seq<Sqe>
    var nextOp: nat
    var nextOwner: nat

    ghost function View(): Loop
      reads this, flows, pool
    {
      Loop(flows.table, pool.free, tapBuf, buffers, ops, sq, nextOp, nextOwner)
    }

    /** The flow's ring is the part of the memory that its buffer selects, and holds what the flow has queued. */
    ghost predicate RingAt(slot: Option<Entry>)
      reads PartsIn(slot), pool.mem
    {
      slot.Some? && slot.value.tcp.Some? ==>
        var c := slot.value.tcp.value;
        c.buf.mem == pool.mem && c.buf.base == Base(slot.value.buf) && c.Layout()
    }

    /** A connection that is over is closing. */
    ghost predicate LiveAt(slot: Option<Entry>)
      reads PartsIn(slot)
    {
      slot.Some? && slot.value.tcp.Some? && !slot.value.closing ==> slot.value.tcp.value.gone.None?
    }

    ghost predicate Sound(x: int)
      reads flows, flows.conns, flows.rings, pool.mem
    {
      && flows.LinkedBut(x) && flows.Distinct() && pool.mem.Length == buffers * BUF_SIZE
      && (forall i: nat :: i < |flows.flows| ==> RingAt(flows.flows[i]))
      && (forall i: nat :: i < |flows.flows| && i != x ==> LiveAt(flows.flows[i]))
    }

    /** Every slot is sound. */
    ghost predicate Whole()
      reads flows, flows.conns, flows.rings, pool.mem
    {
      AsOne(Sound(-1))
    }

    ghost predicate Valid()
      reads this, flows, flows.conns, flows.rings, pool, pool.mem
    {
      Whole() && AsOne(Safe(View()))
    }

    /** The pool must hold at least the tap's buffer. */
    constructor (buffers: nat, tso: bool)
      requires 0 < buffers < TWO32
      ensures Valid() && View() == Start(buffers) && fresh(flows) && fresh(pool) && fresh(pool.mem)
      ensures flows.conns == {} && flows.rings == {}
    {
      var p := new Pool(buffers);
      ghost var all := p.free;
      var b := p.Alloc();
      assert all[|all| - 1] == b.value && forall i :: 0 <= i < |p.free| ==> p.free[i] == all[i];
      this.flows := new Flows();
      this.pool := p;
      this.tapBuf := b.value;
      this.buffers := buffers;
      this.tso := tso;
      ops, sq, nextOp, nextOwner := map[], [], 0, 0;
      new;
      assert p.free == Start(buffers).pool && tapBuf == buffers - 1;
    }

    // -------------------------------------------------------------------------------------------
    // Memory
    // -------------------------------------------------------------------------------------------

    /** The kernel carries out an operation: a receive writes into its flow's buffer, a poll writes nothing. */
    method Received(a: nat, bytes: seq<byte>)
      requires Valid() && a in ops && !ops[a].queued && |bytes| <= FRAME
      modifies pool.mem
      ensures Valid() && View() == old(View())
    {
      OpSlot(View(), a);
      var id := ops[a].slot;
      assert Stands(flows.flows[id], flows.table.flows[id]);
      if flows.flows[id].value.tcp.None? {
        assert BufferIn(flows.table, id, flows.flows[id].value.buf);
        WriteBuffer(flows.flows[id].value.buf, Base(flows.flows[id].value.buf), bytes);
      }
    }

    /** The tap's frames go to a buffer of their own. */
    method TapRead(bytes: seq<byte>)
      requires Valid() && |bytes| <= BUF_SIZE
      modifies pool.mem
      ensures Valid() && View() == old(View()) && OnlyBuffer(old(pool.mem[..]), pool.mem[..], tapBuf)
    {
      WriteBuffer(tapBuf, tapBuf * BUF_SIZE, bytes);
    }

    /** A write into a buffer that no connection has. */
    method WriteBuffer(b: nat, at: nat, bytes: seq<byte>)
      requires Valid() && b < buffers && b * BUF_SIZE <= at && at + |bytes| <= (b + 1) * BUF_SIZE
      requires NoRing(View(), b)
      modifies pool.mem
      ensures Valid() && View() == old(View()) && OnlyBuffer(old(pool.mem[..]), pool.mem[..], b)
    {
      ghost var l, mem := View(), pool.mem[..];
      CopyInto(pool.mem, at, bytes);
      assert OnlyBuffer(mem, pool.mem[..], b);
      forall i: nat | i < |flows.flows| ensures RingAt(flows.flows[i]) {
        if flows.flows[i].Some? && flows.flows[i].value.tcp.Some? {
          assert Stands(flows.flows[i], flows.table.flows[i]);
          NotThisBuffer(l, i, b);
          OtherRing(mem, pool.mem[..], b, flows.flows[i].value.buf);
        }
      }
    }

    // -------------------------------------------------------------------------------------------
    // Connections
    // -------------------------------------------------------------------------------------------

    /**
      One event of the connection in slot `id`.  Whatever it writes lands in its own ring: every other
      flow's ring still holds what that flow has queued.
     */
    method RunConnection(id: nat, e: Event) returns (polls: nat)
      requires Sound(-1) && OwnBuffer(flows.table, buffers, id) && Live(flows.table, id)
      requires ConnOf(View(), id).Some? && Inv(ConnOf(View(), id).value)
      modifies pool.mem, PartsIn(flows.flows[id])
      ensures Sound(id) && Moved(flows.flows[id], flows.table.flows[id]) && flows.flows[id].value.tcp.Some?
      ensures flows.flows[id].value.tcp.value.View() == Step(ConnOf(View(), id).value, tso, e)
      ensures polls == ConnOf(View(), id).value.io.polls
      ensures OnlyBuffer(old(pool.mem[..]), pool.mem[..], flows.flows[id].value.buf)
    {
      assert Stands(flows.flows[id], flows.table.flows[id]) && RingAt(flows.flows[id]) && LiveAt(flows.flows[id]);
      ghost var mem, b := pool.mem[..], flows.flows[id].value.buf;
      var conn := flows.flows[id].value.tcp.value;
      polls := conn.io.polls;
      conn.Handle(e, tso);
      WindowInBuffer(mem, pool.mem[..], b);
      forall i: nat | i < |flows.flows| && i != id
        ensures Stands(flows.flows[i], flows.table.flows[i]) && LiveAt(flows.flows[i])
      {
        assert PartsIn(flows.flows[i]) !! PartsIn(flows.flows[id]);
        assert old(Stands(flows.flows[i], flows.table.flows[i])) && old(LiveAt(flows.flows[i]));
      }
      forall i: nat | i < |flows.flows| ensures RingAt(flows.flows[i]) {
        if i != id && flows.flows[i].Some? && flows.flows[i].value.tcp.Some? {
          assert PartsIn(flows.flows[i]) !! PartsIn(flows.flows[id]);
          assert old(RingAt(flows.flows[i])) && Stands(flows.flows[i], flows.table.flows[i]);
          OtherRing(mem, pool.mem[..], b, flows.flows[i].value.buf);
        }
      }
    }

    // -------------------------------------------------------------------------------------------
    // Slots and operations
    // -------------------------------------------------------------------------------------------

    /** Submit a receive or poll for the flow in slot `id`. */
    method Push(id: nat)
      requires flows.LinkedBut(-1) && Occupied(flows.table, id)
      modifies this`ops, this`sq, this`nextOp
      ensures View() == PushOp(old(View()), id)
    {
      assert Stands(flows.flows[id], flows.table.flows[id]);
      ops := ops[nextOp := Op(id, flows.flows[id].value.owner, true, false)];
      sq := sq + [Submit(nextOp)];
      nextOp := nextOp + 1;
    }

    method FreeSlot(id: nat)
      requires Sound(id) && flows.LinkedBut(-1)
      modifies flows, pool
      ensures Whole() && flows.SameObjects(old(flows.conns), old(flows.rings))
      ensures View() == EventLoop.FreeSlot(old(View()), id)
    {
      var b := flows.Remove(id);
      if b.Some? {
        pool.Free(b.value);
      }
    }

    method CloseSlot(id: nat)
      requires Sound(id) && flows.LinkedBut(-1) && Occupied(flows.table, id)
      modifies this`sq, flows
      ensures Sound(-1) && flows.SameObjects(old(flows.conns), old(flows.rings))
      ensures View() == EventLoop.CloseSlot(old(View()), id)
    {
      assert Stands(flows.flows[id], flows.table.flows[id]) && RingAt(flows.flows[id]);
      var owner := flows.flows[id].value.owner;
      flows.MarkClosing(id);
      sq := sq + [Cancel(id, owner)];
      assert RingAt(flows.flows[id]) && LiveAt(flows.flows[id]);
    }

    /** Close a flow; with an operation pending, its slot and buffer follow once that completes. */
    method RemoveFlow(id: nat)
      requires Sound(id) && flows.LinkedBut(-1)
      modifies this`sq, flows, pool
      ensures Whole() && flows.SameObjects(old(flows.conns), old(flows.rings))
      ensures View() == EventLoop.RemoveFlow(old(View()), id)
    {
      var pending := false;
      if id < |flows.flows| && flows.flows[id].Some? {
        assert Stands(flows.flows[id], flows.table.flows[id]);
        var e := flows.flows[id].value;
        pending := e.tcp.None? || e.tcp.value.pollArmed;
        assert pending == Pending(flows.table.flows[id].value);
      }
      if pending {
        CloseSlot(id);
      } else {
        FreeSlot(id);
      }
    }

    /** The table catches up with a connection that went through a handler. */
    method CatchUp(id: nat, lastActive: nat)
      requires Sound(id) && id < |flows.flows| && Moved(flows.flows[id], flows.table.flows[id])
      requires flows.flows[id].value.tcp.Some?
      modifies flows
      ensures Sound(id) && flows.LinkedBut(-1) && flows.SameObjects(old(flows.conns), old(flows.rings))
      ensures id < |flows.flows| && flows.flows[id] == Some(old(flows.flows[id].value).(lastActive := lastActive))
      ensures View() == PutFlow(old(View()), id, old(ViewOf(flows.flows[id].value)).(lastActive := lastActive))
    {
      flows.Touch(id, lastActive);
    }

    /** Put back a connection that went through a handler, with the poll it submitted, if any. */
    method Settle(id: nat, polls: nat, lastActive: nat)
      requires Sound(id) && id < |flows.flows| && Moved(flows.flows[id], flows.table.flows[id])
      requires ConnOf(View(), id).Some? && polls == ConnOf(View(), id).value.io.polls
      modifies this`ops, this`sq, this`nextOp, flows, pool
      ensures Whole() && flows.SameObjects(old(flows.conns), old(flows.rings))
      ensures View() == Handled(old(View()), id, old(flows.flows[id].value.tcp.value.View()), lastActive)
    {
      var conn := flows.flows[id].value.tcp.value;
      CatchUp(id, lastActive);
      if conn.io.polls > polls {
        Push(id);
      }
      if conn.gone.Some? {
        RemoveFlow(id);
      } else {
        StillLive(id);
      }
    }

    /** With a connection that goes on, the slot is sound as well. */
    ghost method StillLive(id: nat)
      requires Sound(id) && flows.LinkedBut(-1) && id < |flows.flows| && LiveAt(flows.flows[id])
      ensures Whole()
    {
    }

    /** One event of the connection in slot `id`, and what follows for the loop. */
    method Act(id: nat, e: Event, lastActive: nat)
      requires Whole() && OwnBuffer(flows.table, buffers, id) && Live(flows.table, id)
      requires ConnOf(View(), id).Some? && Inv(ConnOf(View(), id).value)
      modifies this`ops, this`sq, this`nextOp, flows, pool, pool.mem, flows.conns, flows.rings
      ensures Whole() && flows.SameObjects(old(flows.conns), old(flows.rings))
      ensures View() == Handled(old(View()), id, Step(ConnOf(old(View()), id).value, tso, e), lastActive)
    {
      assert Known(flows.flows[id], flows.conns, flows.rings);
      ghost var c := Step(ConnOf(View(), id).value, tso, e);
      var polls := RunConnection(id, e);
      assert flows.flows[id].value.tcp.value.View() == c;
      Settle(id, polls, lastActive);
    }

    /** The loop stays valid if the model says so. */
    method Serve(id: nat, e: Event, lastActive: nat, ghost target: Loop)
      requires Valid() && Timed(View(), id) && AsOne(Safe(target))
      requires AsOne(Inv(ConnOf(View(), id).value)) && target == Served(View(), id, tso, e, lastActive)
      modifies this`ops, this`sq, this`nextOp, flows, pool, pool.mem, flows.conns, flows.rings
      ensures Valid() && flows.SameObjects(old(flows.conns), old(flows.rings)) && View() == target
    {
      ConnHolds(View(), id);
      Act(id, e, lastActive);
    }

    // -------------------------------------------------------------------------------------------
    // Opening
    // -------------------------------------------------------------------------------------------

    /** The flow to give up when the pool is dry. */
    method FindVictim() returns (victim: Option<nat>)
      requires flows.LinkedBut(-1)
      ensures victim == LruEvictable(flows.table.flows)
    {
      victim := None;
      var i := 0;
      while i < |flows.flows|
        invariant 0 <= i <= |flows.flows| && victim == LruEvictable(flows.table.flows[..i])
      {
        LruStep(flows.table.flows, i);
        assert Stands(flows.flows[i], flows.table.flows[i]);
        var slot := flows.flows[i];
        if slot.Some? && !slot.value.closing && !slot.value.kind.TcpKind? {
          if victim.None? {
            victim := Some(i);
          } else {
            assert Stands(flows.flows[victim.value], flows.table.flows[victim.value]);
            if slot.value.lastActive < flows.flows[victim.value].value.lastActive {
              victim := Some(i);
            }
          }
        }
        i := i + 1;
      }
      assert flows.table.flows[..i] == flows.table.flows;
    }

    /** A buffer for a new flow; with the pool dry, the least recently used UDP or ping flow goes. */
    method AllocFlowBuf() returns (b: Option<nat>)
      requires Whole()
      modifies this`sq, flows, pool
      ensures Whole() && flows.SameObjects(old(flows.conns), old(flows.rings))
      ensures old(pool.free) == [] ==> b == None && View() == Evict(old(View()))
      ensures old(pool.free) != [] ==>
                b.Some? && old(pool.free) == pool.free + [b.value] && View() == old(View()).(pool := pool.free)
    {
      b := pool.Alloc();
      if b.None? {
        var victim := FindVictim();
        if victim.Some? {
          RemoveFlow(victim.value);
        }
      }
    }

    /** A new entry joins the table; what it brings along is its own. */
    method Add(e: Entry)
      requires Whole() && (e.tcp.Some? ==> e.tcp.value !in flows.conns && e.tcp.value.buf !in flows.rings)
      requires RingAt(Some(e)) && LiveAt(Some(e)) && FreeOk(flows.table) && e.owner == nextOwner
      modifies this`nextOwner, flows
      ensures Whole()
      ensures flows.conns == old(flows.conns) + ConnsIn(e)
      ensures flows.rings == old(flows.rings) + RingsIn(e)
      ensures View() == WithFlow(old(View()), old(ViewOf(e))) && Occupied(flows.table, NextSlot(old(flows.table)))
    {
      ghost var before := flows.flows;
      var id := flows.Insert(e);
      nextOwner := nextOwner + 1;
      forall i: nat | i < |flows.flows| ensures RingAt(flows.flows[i]) && LiveAt(flows.flows[i]) {
        if i != id {
          assert flows.flows[i] == before[i] && old(RingAt(before[i])) && old(LiveAt(before[i]));
        }
      }
    }

    /** The slot that the next flow goes to. */
    method NextId() returns (id: nat)
      requires flows.LinkedBut(-1) && FreeOk(flows.table)
      ensures id == NextSlot(flows.table)
    {
      id := if flows.free == [] then |flows.flows| else flows.free[|flows.free| - 1];
    }

    /** Submit the first operation of a flow just added; a full queue undoes the flow. */
    method Launch(id: nat, pushOk: bool)
      requires Whole() && Occupied(flows.table, id)
      modifies this`ops, this`sq, this`nextOp, flows, pool
      ensures Whole() && flows.SameObjects(old(flows.conns), old(flows.rings))
      ensures View() == if pushOk then PushOp(old(View()), id) else EventLoop.FreeSlot(old(View()), id)
    {
      if pushOk {
        Push(id);
      } else {
        FreeSlot(id);
      }
    }

    /** A new entry and its first operation. */
    method Admit(e: Entry, pushOk: bool)
      requires Whole() && (e.tcp.Some? ==> e.tcp.value !in flows.conns && e.tcp.value.buf !in flows.rings)
      requires RingAt(Some(e)) && LiveAt(Some(e)) && FreeOk(flows.table) && e.owner == nextOwner
      modifies this, flows, pool
      ensures Whole()
      ensures flows.conns == old(flows.conns) + ConnsIn(e)
      ensures flows.rings == old(flows.rings) + RingsIn(e)
      ensures View() == Admitted(old(View()), old(ViewOf(e)), pushOk)
    {
      ghost var l, f := View(), ViewOf(e);
      var id := NextId();
      Add(e);
      assert View() == WithFlow(l, f);
      Launch(id, pushOk);
    }

    /** A new UDP or ping flow. */
    method OpenDatagram(key: Key, kind: Kind, now: nat, pushOk: bool)
      requires Whole() && FreeOk(flows.table)
      modifies this, flows, pool
      ensures Whole() && flows.SameObjects(old(flows.conns), old(flows.rings))
      ensures View() == OpenFlow(old(View()), key, kind, None, now, pushOk)
    {
      ghost var l := View();
      var b := AllocFlowBuf();
      if b.Some? {
        OpensAdmitted(l, pool.free, FlowTable.Flow(key, kind, b.value, now, None, false, nextOwner), pushOk);
        Admit(Entry(key, kind, b.value, now, None, false, nextOwner), pushOk);
      }
    }

    /** The entry of a new TCP flow: its ring is buffer `b`. */
    method NewTcp(
      key: Key, b: nat, seqno: u32, window: u16, mss: Option<u16>, wscale: Option<byte>, now: nat) returns (e: Entry)
      requires b < buffers && pool.mem.Length == buffers * BUF_SIZE
      ensures e.tcp.Some? && fresh(e.tcp.value) && fresh(e.tcp.value.buf) && e.owner == nextOwner
      ensures RingAt(Some(e)) && LiveAt(Some(e))
      ensures ViewOf(e)
              == FlowTable.Flow(key, TcpKind, b, now, Some(Open(seqno, window, mss, wscale, now)), false, nextOwner)
    {
      var conn := new Connection(pool.mem, Base(b), seqno, window, mss, wscale, now);
      e := Entry(key, TcpKind, b, now, Some(conn), false, nextOwner);
    }

    method AdmitTcp(
      key: Key, b: nat, seqno: u32, window: u16, mss: Option<u16>, wscale: Option<byte>, now: nat, pushOk: bool,
      ghost f: FlowTable.Flow)
      requires Whole() && FreeOk(flows.table) && b < buffers
      requires f == FlowTable.Flow(key, TcpKind, b, now, Some(Open(seqno, window, mss, wscale, now)), false, nextOwner)
      modifies this, flows, pool
      ensures Whole() && fresh(flows.conns - old(flows.conns)) && fresh(flows.rings - old(flows.rings))
      ensures View() == Admitted(old(View()), f, pushOk)
    {
      var e := NewTcp(key, b, seqno, window, mss, wscale, now);
      Admit(e, pushOk);
    }

    /** A new TCP flow with the buffer just taken from the pool. */
    method OpenTcp(
      key: Key, seqno: u32, window: u16, mss: Option<u16>, wscale: Option<byte>, now: nat, pushOk: bool)
      requires Whole() && FreeOk(flows.table) && forall i :: 0 <= i < |pool.free| ==> pool.free[i] < buffers
      modifies this, flows, pool
      ensures Whole() && fresh(flows.conns - old(flows.conns)) && fresh(flows.rings - old(flows.rings))
      ensures View() == OpenFlow(old(View()), key, TcpKind, Some(Open(seqno, window, mss, wscale, now)), now, pushOk)
    {
      ghost var l := View();
      var b := AllocFlowBuf();
      if b.Some? {
        assert l.pool[|pool.free|] == b.value;
        ghost var c := Open(seqno, window, mss, wscale, now);
        ghost var f := FlowTable.Flow(key, TcpKind, b.value, now, Some(c), false, nextOwner);
        OpensAdmitted(l, pool.free, f, pushOk);
        AdmitTcp(key, b.value, seqno, window, mss, wscale, now, pushOk, f);
      }
    }

    // -------------------------------------------------------------------------------------------
    // Handlers
    // -------------------------------------------------------------------------------------------

    method TouchFlow(id: nat, lastActive: nat)
      requires Whole() && Occupied(flows.table, id)
      modifies flows
      ensures Whole() && flows.SameObjects(old(flows.conns), old(flows.rings))
      ensures View() == PutFlow(old(View()), id, old(flows.table).flows[id].value.(lastActive := lastActive))
    {
      assert Stands(flows.flows[id], flows.table.flows[id]) && RingAt(flows.flows[id]) && LiveAt(flows.flows[id]);
      flows.Touch(id, lastActive);
      assert RingAt(flows.flows[id]) && LiveAt(flows.flows[id]);
    }

    /** A UDP or ping flow waits for its next datagram. */
    method Rearm(id: nat, lastActive: nat)
      requires Whole() && Occupied(flows.table, id)
      modifies this`ops, this`sq, this`nextOp, flows
      ensures Whole() && flows.SameObjects(old(flows.conns), old(flows.rings))
      ensures View()
              == PushOp(PutFlow(old(View()), id, old(flows.table).flows[id].value.(lastActive := lastActive)), id)
    {
      TouchFlow(id, lastActive);
      Push(id);
    }

    /** The poll of a live TCP flow completed. */
    method PollCompleted(id: nat, outcome: Outcome, recv: Recv, now: nat)
      requires Valid() && Live(flows.table, id) && ConnOf(View(), id).Some? && NoOp(ops, id)
      modifies this`ops, this`sq, this`nextOp, flows, pool, pool.mem, flows.conns, flows.rings
      ensures Valid() && flows.SameObjects(old(flows.conns), old(flows.rings))
      ensures View() == PollDone(old(View()), id, outcome, recv, tso, now)
    {
      assert Stands(flows.flows[id], flows.table.flows[id]) && LiveAt(flows.flows[id]);
      ghost var target := PollDone(View(), id, outcome, recv, tso, now);
      PollDoneSafe(View(), id, outcome, recv, tso, now);
      if outcome.Ready? {
        var Ready(pollErr, pollHup, sockErr) := outcome;
        ReadyServed(View(), id, pollErr, pollHup, sockErr, recv, tso, now);
        Serve(id, SocketReady(pollErr, pollHup, sockErr, recv, now), now, target);
      } else {
        FailureServed(View(), id, outcome, recv, tso, now);
        Serve(id, PollFailed, flows.flows[id].value.lastActive, target);
      }
    }

    /** Dispatch of a completion, which names nothing but a slot. */
    method Completed(id: nat, outcome: Outcome, recv: Recv, now: nat)
      requires Valid() && AsOne(NoOp(ops, id))
      modifies this`ops, this`sq, this`nextOp, flows, pool, pool.mem, flows.conns, flows.rings
      ensures Valid() && flows.SameObjects(old(flows.conns), old(flows.rings))
      ensures View() == HandleCompletion(old(View()), id, outcome, recv, tso, now)
    {
      CompletionSafe(View(), id, outcome, recv, tso, now);
      if id < |flows.flows| && flows.flows[id].Some? {
        assert Stands(flows.flows[id], flows.table.flows[id]);
        var e := flows.flows[id].value;
        if e.closing || outcome.Cancelled? {
          FreeSlot(id);
        } else if e.tcp.Some? {
          PollCompleted(id, outcome, recv, now);
        } else {
          var answered := outcome.Ready? || (e.kind.Udp? && outcome.Error? && outcome.reported);
          Rearm(id, if answered then now else e.lastActive);
        }
      } else {
        assert !Occupied(flows.table, id);
      }
    }

    /** The kernel no longer holds operation `a`. */
    method Drop(a: nat)
      requires Whole()
      modifies this`ops
      ensures Whole() && View() == DropOp(old(View()), a)
    {
      ops := ops - {a};
    }

    /** The kernel is done with operation `a`. */
    method Complete(a: nat, outcome: Outcome, recv: Recv, now: nat)
      requires Valid() && Possible(View(), Completes(a, outcome, recv, now))
      modifies this`ops, this`sq, this`nextOp, flows, pool, pool.mem, flows.conns, flows.rings
      ensures Valid() && flows.SameObjects(old(flows.conns), old(flows.rings))
      ensures View() == StepLoop(old(View()), tso, Completes(a, outcome, recv, now))
    {
      CompletesIs(View(), a, outcome, recv, tso, now);
      var id := ops[a].slot;
      Drop(a);
      Completed(id, outcome, recv, now);
    }

    /** A UDP datagram or echo request from the guest. */
    method Forward(key: Key, kind: Kind, allowed: bool, pushOk: bool, now: nat)
      requires Valid()
      modifies this, flows, pool
      ensures Valid() && flows.SameObjects(old(flows.conns), old(flows.rings))
      ensures View() == HandleDatagram(old(View()), key, kind, allowed, pushOk, now)
    {
      DatagramSafe(View(), key, kind, allowed, pushOk, now);
      if key in flows.byKey {
        TouchFlow(flows.byKey[key], now);
      } else if allowed && !kind.TcpKind? {
        OpenDatagram(key, kind, now, pushOk);
      }
    }

    /** A guest segment for the flow in slot `id`. */
    method Deliver(id: nat, h: Header, payload: seq<byte>, accept: nat, recv: Recv, now: nat)
      requires Valid() && Live(flows.table, id)
      modifies this`ops, this`sq, this`nextOp, flows, pool, pool.mem, flows.conns, flows.rings
      ensures Valid() && flows.SameObjects(old(flows.conns), old(flows.rings))
      ensures View() == SegmentTo(old(View()), id, h, payload, accept, recv, tso, now)
    {
      assert Stands(flows.flows[id], flows.table.flows[id]) && LiveAt(flows.flows[id]);
      ghost var target := SegmentTo(View(), id, h, payload, accept, recv, tso, now);
      SegmentToSafe(View(), id, h, payload, accept, recv, tso, now);
      if flows.flows[id].value.tcp.None? {
        TouchFlow(id, now);
      } else {
        SegmentServed(View(), id, h, payload, accept, recv, tso, now);
        Serve(id, FromGuest(h, payload, accept, recv, now), now, target);
      }
    }

    /** A guest segment: to its flow, or a SYN that opens one. */
    method HandleTcp(
      key: Key, h: Header, mss: Option<u16>, wscale: Option<byte>, payload: seq<byte>, accept: nat, recv: Recv,
      allowed: bool, pushOk: bool, now: nat)
      requires Valid()
      modifies this, flows, pool, pool.mem, flows.conns, flows.rings
      ensures Valid() && fresh(flows.conns - old(flows.conns)) && fresh(flows.rings - old(flows.rings))
      ensures View()
              == HandleSegment(old(View()), key, h, mss, wscale, payload, accept, recv, tso, allowed, pushOk, now)
    {
      SegmentSafe(View(), key, h, mss, wscale, payload, accept, recv, tso, allowed, pushOk, now);
      if key in flows.byKey {
        Deliver(flows.byKey[key], h, payload, accept, recv, now);
      } else if h.flags.syn && !h.flags.ack && !h.flags.rst && allowed {
        OpenTcp(key, h.seqno, h.window, mss, wscale, now, pushOk);
      }
    }

    // -------------------------------------------------------------------------------------------
    // Timer
    // -------------------------------------------------------------------------------------------

    method FindDue(cutoff: nat) returns (ids: seq<nat>)
      requires flows.LinkedBut(-1)
      ensures ids == TcpTimerDue(flows.table.flows, cutoff)
    {
      ids := [];
      var i := 0;
      while i < |flows.flows|
        invariant 0 <= i <= |flows.flows| && ids == TcpTimerDue(flows.table.flows[..i], cutoff)
      {
        DueStep(flows.table.flows, i, cutoff);
        assert Stands(flows.flows[i], flows.table.flows[i]);
        var slot := flows.flows[i];
        if slot.Some? && !slot.value.closing && slot.value.tcp.Some? && slot.value.tcp.value.TimerDueNow(cutoff) {
          ids := ids + [i];
        }
        i := i + 1;
      }
      assert flows.table.flows[..i] == flows.table.flows;
    }

    method FindExpired(cutoff: nat) returns (ids: seq<nat>)
      requires flows.LinkedBut(-1)
      ensures ids == Expired(flows.table.flows, cutoff)
    {
      ids := [];
      var i := 0;
      while i < |flows.flows|
        invariant 0 <= i <= |flows.flows| && ids == Expired(flows.table.flows[..i], cutoff)
      {
        ExpiredStep(flows.table.flows, i, cutoff);
        assert Stands(flows.flows[i], flows.table.flows[i]);
        var slot := flows.flows[i];
        if slot.Some? && !slot.value.closing && slot.value.lastActive < cutoff {
          ids := ids + [i];
        }
        i := i + 1;
      }
      assert flows.table.flows[..i] == flows.table.flows;
    }

    /** Maintenance of one flow. */
    method TickFlow(id: nat, recv: Recv, now: nat)
      requires Valid() && Timed(View(), id)
      modifies this`ops, this`sq, this`nextOp, flows, pool, pool.mem, flows.conns, flows.rings
      ensures Valid() && flows.SameObjects(old(flows.conns), old(flows.rings))
      ensures View() == Tick(old(View()), id, recv, tso, now)
    {
      assert Stands(flows.flows[id], flows.table.flows[id]) && LiveAt(flows.flows[id]);
      ghost var target := Tick(View(), id, recv, tso, now);
      TickSafe(View(), id, recv, tso, now);
      TickServed(View(), id, recv, tso, now);
      Serve(id, TimerTick(recv, now), flows.flows[id].value.lastActive, target);
    }

    method TickEach(due: seq<nat>, recvs: seq<Recv>, now: nat)
      requires Valid() && Ascending(due) && AllTimed(View(), due)
      modifies this`ops, this`sq, this`nextOp, flows, pool, pool.mem, flows.conns, flows.rings
      ensures Valid() && flows.SameObjects(old(flows.conns), old(flows.rings))
      ensures View() == TickAll(old(View()), due, recvs, tso, now)
    {
      var ids, left := due, recvs;
      while ids != []
        invariant Valid() && flows.SameObjects(old(flows.conns), old(flows.rings))
        invariant TickAll(View(), ids, left, tso, now) == TickAll(old(View()), due, recvs, tso, now)
        invariant Ascending(ids) && AllTimed(View(), ids)
        decreases |ids|
      {
        var recv := if left == [] then Again else left[0];
        TicksApart(View(), ids, recv, tso, now);
        TickFlow(ids[0], recv, now);
        ids, left := ids[1..], if left == [] then [] else left[1..];
      }
    }

    /** Maintenance of every TCP flow that is due. */
    method TcpPeriodic(recvs: seq<Recv>, now: nat)
      requires Valid() && now >= RTO
      modifies this`ops, this`sq, this`nextOp, flows, pool, pool.mem, flows.conns, flows.rings
      ensures Valid() && flows.SameObjects(old(flows.conns), old(flows.rings))
      ensures View() == TickAll(old(View()), TcpTimerDue(old(flows.table).flows, now - RTO), recvs, tso, now)
    {
      ghost var l, due := View(), TcpTimerDue(flows.table.flows, now - RTO);
      var ids := FindDue(now - RTO);
      assert ids == due && l == View();
      DueTimed(l, ids, now - RTO);
      TickEach(ids, recvs, now);
      assert View() == TickAll(l, due, recvs, tso, now);
    }

    method RemoveEach(idle: seq<nat>)
      requires Valid()
      modifies this`sq, flows, pool
      ensures Valid() && flows.SameObjects(old(flows.conns), old(flows.rings))
      ensures View() == RemoveAll(old(View()), idle)
    {
      var ids := idle;
      while ids != []
        invariant Valid() && flows.SameObjects(old(flows.conns), old(flows.rings))
        invariant RemoveAll(View(), ids) == RemoveAll(old(View()), idle)
        decreases |ids|
      {
        RemoveFlowSafe(View(), ids[0]);
        RemoveFlow(ids[0]);
        ids := ids[1..];
      }
    }

    /** Reclaiming of the idle flows. */
    method ExpireFlows(now: nat)
      requires Valid() && now >= FLOW_EXPIRY
      modifies this`sq, flows, pool
      ensures Valid() && flows.SameObjects(old(flows.conns), old(flows.rings))
      ensures View() == RemoveAll(old(View()), Expired(old(flows.table).flows, now - FLOW_EXPIRY))
    {
      ghost var l, idle := View(), Expired(flows.table.flows, now - FLOW_EXPIRY);
      var ids := FindExpired(now - FLOW_EXPIRY);
      assert ids == idle && l == View();
      RemoveEach(ids);
      assert View() == RemoveAll(l, idle);
    }

    method OnTimer(recvs: seq<Recv>, now: nat)
      requires Valid()
      modifies this`ops, this`sq, this`nextOp, flows, pool, pool.mem, flows.conns, flows.rings
      ensures Valid() && flows.SameObjects(old(flows.conns), old(flows.rings))
      ensures View() == HandleTimerEvent(old(View()), recvs, tso, now)
    {
      if now >= RTO {
        TcpPeriodic(recvs, now);
      }
      if now >= FLOW_EXPIRY {
        ExpireFlows(now);
      }
    }

    // -------------------------------------------------------------------------------------------
    // Runs
    // -------------------------------------------------------------------------------------------

    /** The kernel takes the oldest entry of the submission queue. */
    method Take(inTime: bool)
      requires QueueOk(sq, ops)
      modifies this`ops, this`sq
      ensures View() == KernelTakes(old(View()), inTime)
    {
      if sq != [] {
        match sq[0] {
          case Submit(a) => ops := ops[a := ops[a].(queued := false)];
          case Cancel(slot, _) => ops := if inTime then Marked(ops, slot) else ops;
        }
        sq := sq[1..];
      }
    }

    /** The kernel takes an entry of the queue, or is done with an operation. */
    method HandleKernel(e: LoopEvent)
      requires Valid() && (e.Takes? || e.Completes?)
      modifies this`ops, this`sq, this`nextOp, flows, pool, pool.mem, flows.conns, flows.rings
      ensures Valid() && flows.SameObjects(old(flows.conns), old(flows.rings))
      ensures View() == StepLoop(old(View()), tso, e)
    {
      if e.Takes? {
        KernelTakesSafe(View(), e.inTime);
        Take(e.inTime);
      } else if e.op in ops && !ops[e.op].queued && (e.outcome.Cancelled? ==> ops[e.op].cancelled) {
        Complete(e.op, e.outcome, e.recv, e.now);
      }
    }

    /** Any event: one step of the model, and no flow's bytes are lost to another. */
    method Handle(e: LoopEvent)
      requires Valid()
      modifies this, flows, pool, pool.mem, flows.conns, flows.rings
      ensures Valid() && View() == StepLoop(old(View()), tso, e)
      ensures fresh(flows.conns - old(flows.conns)) && fresh(flows.rings - old(flows.rings))
    {
      match e
      case Segment(key, h, mss, wscale, payload, accept, recv, allowed, pushOk, now) =>
        HandleTcp(key, h, mss, wscale, payload, accept, recv, allowed, pushOk, now);
      case Datagram(key, kind, allowed, pushOk, now) => Forward(key, kind, allowed, pushOk, now);
      case Timer(recvs, now) => OnTimer(recvs, now);
      case _ => HandleKernel(e);
    }

    /** Whatever happens next. */
    method React(a: Activity)
      requires Valid()
      modifies this, flows, pool, pool.mem, flows.conns, flows.rings
      ensures Valid() && View() == Reacted(old(View()), tso, a)
      ensures fresh(flows.conns - old(flows.conns)) && fresh(flows.rings - old(flows.rings))
    {
      match a
      case Handles(e) => Handle(e);
      case Receives(op, bytes) =>
        if op in ops && !ops[op].queued && |bytes| <= FRAME {
          Received(op, bytes);
        }
      case TapReads(bytes) =>
        if |bytes| <= BUF_SIZE {
          TapRead(bytes);
        }
    }

    /** A run, with the kernel writing into buffers at any time in between. */
    method Run(activities: seq<Activity>)
      requires Valid()
      modifies this, flows, pool, pool.mem, flows.conns, flows.rings
      ensures Valid() && View() == RunLoop(old(View()), tso, EventsOf(activities))
      decreases |activities|
    {
      if activities != [] {
        RunStarts(View(), tso, activities);
        React(activities[0]);
        Run(activities[1..]);
      }
    }
  }

  /** What happens to the engine: an event of the loop, or a write of the kernel into a buffer. */
  datatype Activity = Handles(e: LoopEvent) | Receives(op: nat, bytes: seq<byte>) | TapReads(bytes: seq<byte>)

  ghost function EventsOf(activities: seq<Activity>): seq<LoopEvent> {
    if activities == [] then []
    else (if activities[0].Handles? then [activities[0].e] else []) + EventsOf(activities[1..])
  }

  ghost function Reacted(l: Loop, tso: bool, a: Activity): Loop
    requires Safe(l)
  {
    if a.Handles? then StepLoop(l, tso, a.e) else l
  }

  /** A run is its first event and the run from there. */
  lemma {:induction false} RunSplits(l: Loop, tso: bool, e: LoopEvent, events: seq<LoopEvent>)
    requires Safe(l)
    ensures RunLoop(l, tso, [e] + events) == RunLoop(StepLoop(l, tso, e), tso, events)
    decreases |events|
  {
    var all, n := [e] + events, |events|;
    assert all[..n] + [all[n]] == all;
    if events == [] {
      assert all[..n] == [] && all[n] == e;
    } else {
      assert all[..n] == [e] + events[..n - 1] && all[n] == events[n - 1];
      RunSplits(l, tso, e, events[..n - 1]);
    }
  }

  lemma RunStarts(l: Loop, tso: bool, activities: seq<Activity>)
    requires Safe(l) && activities != []
    ensures RunLoop(l, tso, EventsOf(activities))
            == RunLoop(Reacted(l, tso, activities[0]), tso, EventsOf(activities[1..]))
  {
    var rest := EventsOf(activities[1..]);
    if activities[0].Handles? {
      RunSplits(l, tso, activities[0].e, rest);
    } else {
      assert EventsOf(activities) == rest;
    }
  }

  /** A flow without a connection has buffer `b`. */
  ghost predicate BufferIn(t: Table, id: nat, b: nat) {
    Occupied(t, id) && t.flows[id].value.tcp.None? && t.flows[id].value.buf == b
  }

  /** The buffer is the tap's or that of such a flow. */
  ghost predicate NoRing(l: Loop, b: nat) { b == l.tapBuf || exists id: nat :: BufferIn(l.table, id, b) }

  lemma LruStep(flows: Slots, i: nat)
    requires i < |flows|
    ensures var best := LruEvictable(flows[..i]);
            LruEvictable(flows[..i + 1])
            == if Evictable(flows, i) && (best.None? || flows[i].value.lastActive < flows[best.value].value.lastActive)
               then Some(i) else best
  {
    assert flows[..i + 1][..i] == flows[..i];
  }

  lemma DueStep(flows: Slots, i: nat, cutoff: nat)
    requires i < |flows|
    ensures TcpTimerDue(flows[..i + 1], cutoff)
            == TcpTimerDue(flows[..i], cutoff)
               + if flows[i].Some? && !flows[i].value.closing && flows[i].value.tcp.Some?
                    && TimerDue(flows[i].value.tcp.value.t, cutoff)
                 then [i] else []
  {
    assert flows[..i + 1][..i] == flows[..i];
  }

  lemma ExpiredStep(flows: Slots, i: nat, cutoff: nat)
    requires i < |flows|
    ensures Expired(flows[..i + 1], cutoff)
            == Expired(flows[..i], cutoff)
               + if flows[i].Some? && !flows[i].value.closing && flows[i].value.lastActive < cutoff then [i] else []
  {
    assert flows[..i + 1][..i] == flows[..i];
  }

  /** A slot with a live TCP flow. */
  ghost predicate Timed(l: Loop, id: nat) { Live(l.table, id) && ConnOf(l, id).Some? }

  ghost predicate AllTimed(l: Loop, ids: seq<nat>) { forall i :: 0 <= i < |ids| ==> Timed(l, ids[i]) }

  ghost predicate Ascending(ids: seq<nat>) { forall i, j :: 0 <= i < j < |ids| ==> ids[i] < ids[j] }

  lemma DueTimed(l: Loop, ids: seq<nat>, cutoff: nat)
    requires ids == TcpTimerDue(l.table.flows, cutoff)
    ensures Ascending(ids) && AllTimed(l, ids)
  {
    forall i | 0 <= i < |ids| ensures Timed(l, ids[i]) {
      assert ids[i] in ids;
    }
  }

  lemma HandledApart(l: Loop, id: nat, c': Conn, lastActive: nat, other: nat)
    requires ConnOf(l, id).Some? && other != id
    ensures Timed(l, other) ==> Timed(Handled(l, id, c', lastActive), other)
  {
  }

  /** Maintenance of the first flow leaves the others for later. */
  lemma TicksApart(l: Loop, ids: seq<nat>, recv: Recv, tso: bool, now: nat)
    requires Safe(l) && ids != [] && Ascending(ids) && AllTimed(l, ids)
    ensures Timed(l, ids[0]) && Ascending(ids[1..]) && AllTimed(Tick(l, ids[0], recv, tso, now), ids[1..])
  {
    var c' := HandleTimer(ConnOf(l, ids[0]).value, recv, tso, now);
    forall i | 0 <= i < |ids[1..]| ensures Timed(Tick(l, ids[0], recv, tso, now), ids[1..][i]) {
      assert ids[1..][i] == ids[i + 1];
      HandledApart(l, ids[0], c', l.table.flows[ids[0]].value.lastActive, ids[i + 1]);
    }
  }

  /** No other flow has the buffer of slot `id`. */
  ghost predicate OwnBuffer(t: Table, buffers: nat, id: nat) {
    Occupied(t, id)
    && forall i: nat :: Occupied(t, i) && i != id ==>
         t.flows[i].value.buf != t.flows[id].value.buf && t.flows[i].value.buf < buffers
  }

  /** The flow joins a table whose pool has given its buffer away already. */
  ghost function WithFlow(l: Loop, f: FlowTable.Flow): Loop
    requires FreeOk(l.table)
  {
    l.(table := Insert(l.table, f), nextOwner := l.nextOwner + 1)
  }

  ghost function Admitted(l: Loop, f: FlowTable.Flow, pushOk: bool): Loop
    requires FreeOk(l.table)
  {
    var id := NextSlot(l.table);
    if pushOk then PushOp(WithFlow(l, f), id) else EventLoop.FreeSlot(WithFlow(l, f), id)
  }

  /** Taking the buffer first makes no difference. */
  lemma OpensAdmitted(l: Loop, rest: seq<nat>, f: FlowTable.Flow, pushOk: bool)
    requires FreeOk(l.table) && l.pool == rest + [f.buf] && !f.closing && f.owner == l.nextOwner
    ensures Admitted(l.(pool := rest), f, pushOk) == OpenFlow(l, f.key, f.kind, f.tcp, f.lastActive, pushOk)
  {
    assert l.pool[..|l.pool| - 1] == rest;
  }

  /** What an event of the connection in slot `id` does to the loop. */
  ghost function Served(l: Loop, id: nat, tso: bool, e: Event, lastActive: nat): Loop
    requires ConnOf(l, id).Some? && Inv(ConnOf(l, id).value)
  {
    Handled(l, id, Step(ConnOf(l, id).value, tso, e), lastActive)
  }

  lemma CompletesIs(l: Loop, a: nat, outcome: Outcome, recv: Recv, tso: bool, now: nat)
    requires Safe(l) && Possible(l, Completes(a, outcome, recv, now))
    ensures Safe(DropOp(l, a)) && NoOp(DropOp(l, a).ops, l.ops[a].slot)
    ensures StepLoop(l, tso, Completes(a, outcome, recv, now))
            == HandleCompletion(DropOp(l, a), l.ops[a].slot, outcome, recv, tso, now)
  {
    DropOpSafe(l, a);
  }

  lemma ReadyServed(l: Loop, id: nat, pollErr: bool, pollHup: bool, sockErr: bool, recv: Recv, tso: bool, now: nat)
    requires Safe(l) && ConnOf(l, id).Some? && ConnOf(l, id).value.gone.None?
    ensures Inv(ConnOf(l, id).value)
    ensures PollDone(l, id, Ready(pollErr, pollHup, sockErr), recv, tso, now)
            == Served(l, id, tso, SocketReady(pollErr, pollHup, sockErr, recv, now), now)
  {
    var c := ConnOf(l, id).value;
    assert Step(c, tso, SocketReady(pollErr, pollHup, sockErr, recv, now))
        == HandleReady(c, pollErr, pollHup, sockErr, recv, tso, now);
  }

  lemma FailureServed(l: Loop, id: nat, outcome: Outcome, recv: Recv, tso: bool, now: nat)
    requires Safe(l) && ConnOf(l, id).Some? && ConnOf(l, id).value.gone.None? && !outcome.Ready?
    ensures Inv(ConnOf(l, id).value)
    ensures PollDone(l, id, outcome, recv, tso, now)
            == Served(l, id, tso, PollFailed, l.table.flows[id].value.lastActive)
  {
    var c := ConnOf(l, id).value;
    assert Step(c, tso, PollFailed) == Reset(c);
  }

  lemma SegmentServed(
    l: Loop, id: nat, h: Header, payload: seq<byte>, accept: nat, recv: Recv, tso: bool, now: nat)
    requires Safe(l) && ConnOf(l, id).Some? && ConnOf(l, id).value.gone.None?
    ensures Inv(ConnOf(l, id).value)
    ensures SegmentTo(l, id, h, payload, accept, recv, tso, now)
            == Served(l, id, tso, FromGuest(h, payload, accept, recv, now), now)
  {
    var c := ConnOf(l, id).value;
    assert Step(c, tso, FromGuest(h, payload, accept, recv, now)) == HandleGuest(c, h, payload, accept, recv, tso, now);
  }

  lemma TickServed(l: Loop, id: nat, recv: Recv, tso: bool, now: nat)
    requires Safe(l) && ConnOf(l, id).Some? && ConnOf(l, id).value.gone.None?
    ensures Inv(ConnOf(l, id).value)
    ensures Tick(l, id, recv, tso, now)
            == Served(l, id, tso, TimerTick(recv, now), l.table.flows[id].value.lastActive)
  {
    var c := ConnOf(l, id).value;
    assert Step(c, tso, TimerTick(recv, now)) == HandleTimer(c, recv, tso, now);
  }

  lemma ConnHolds(l: Loop, id: nat)
    requires Safe(l) && ConnOf(l, id).Some?
    ensures Inv(ConnOf(l, id).value) && OwnBuffer(l.table, l.buffers, id)
  {
  }

  lemma OpSlot(l: Loop, a: nat)
    requires Safe(l) && a in l.ops
    ensures Occupied(l.table, l.ops[a].slot) && l.table.flows[l.ops[a].slot].value.buf < l.buffers
  {
  }

  /** Nobody else has it. */
  lemma NotThisBuffer(l: Loop, i: nat, b: nat)
    requires Safe(l) && Occupied(l.table, i) && l.table.flows[i].value.tcp.Some?
    requires NoRing(l, b)
    ensures l.table.flows[i].value.buf != b && l.table.flows[i].value.buf < l.buffers
  {
  }
}
