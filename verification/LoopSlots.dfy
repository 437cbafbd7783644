/**
  What an event of the loop does, slot by slot.  `SlotAfter` says of one slot what becomes of it, without the
  handlers, their queues and lists; the loop does exactly that to every slot.
 */
module LoopSlots {
  import opened Words
  import opened TcpModel
  import opened TcpInvariant
  import opened FlowTable
  import opened EventLoop
  import opened Dispatch

  type Slot = Option<FlowTable.Flow>

  function SlotOf(l: Loop, id: nat): Slot { if id < |l.table.flows| then l.table.flows[id] else None }

  /** A connection that is over is closing. */
  ghost predicate Lively(l: Loop) {
    forall id: nat :: Live(l.table, id) && l.table.flows[id].value.tcp.Some? ==>
      l.table.flows[id].value.tcp.value.gone.None?
  }

  // ---------------------------------------------------------------------------------------------
  // One slot
  // ---------------------------------------------------------------------------------------------

  /** A flow that is given up: with an operation pending it keeps its slot until that completes. */
  function GivenUp(f: FlowTable.Flow): Slot {
    if f.tcp.Some? && !f.tcp.value.t.pollArmed then None else Some(f.(closing := true))
  }

  /** A TCP flow whose connection went to `c`. */
  function WithConn(f: FlowTable.Flow, c: Conn, lastActive: nat): Slot {
    var g := f.(tcp := Some(c), lastActive := lastActive);
    if c.gone.None? then Some(g) else GivenUp(g)
  }

  /** A TCP flow after an event of its connection. */
  function Stepped(f: FlowTable.Flow, tso: bool, e: Event, lastActive: nat): Slot
    requires f.tcp.Some? && Inv(f.tcp.value)
  {
    WithConn(f, Step(f.tcp.value, tso, e), lastActive)
  }

  /** A slot that holds no live flow whose connection is over. */
  ghost predicate SlotLively(slot: Slot) {
    slot.Some? && !slot.value.closing && slot.value.tcp.Some? ==> slot.value.tcp.value.gone.None?
  }

  lemma WithConnLively(f: FlowTable.Flow, c: Conn, lastActive: nat)
    ensures SlotLively(WithConn(f, c, lastActive))
  {
  }

  lemma SlotsLively(l: Loop)
    requires forall id: nat :: SlotLively(SlotOf(l, id))
    ensures Lively(l)
  {
    forall id: nat | Live(l.table, id) && l.table.flows[id].value.tcp.Some?
      ensures l.table.flows[id].value.tcp.value.gone.None?
    {
      assert SlotLively(SlotOf(l, id));
    }
  }

  /** A flow whose operation completes. */
  function Completed(f: FlowTable.Flow, outcome: Outcome, recv: Recv, tso: bool, now: nat): Slot
    requires ConnOk(f)
  {
    if f.closing || outcome.Cancelled? then None
    else if f.tcp.None? then
      var answered := outcome.Ready? || (f.kind.Udp? && outcome.Error? && outcome.reported);
      Some(if answered then f.(lastActive := now) else f)
    else if outcome.Ready? then
      Stepped(f, tso, SocketReady(outcome.pollErr, outcome.pollHup, outcome.sockErr, recv, now), now)
    else Stepped(f, tso, PollFailed, f.lastActive)
  }

  /** A slot when a flow is opened: in the next empty slot, or not at all while the longest-idle flow has to go. */
  function AfterOpening(
    l: Loop, id: nat, key: Key, kind: Kind, tcp: Option<Conn>, now: nat, pushOk: bool): Slot
  {
    if l.pool == [] then
      if LruEvictable(l.table.flows) == Some(id) then GivenUp(l.table.flows[id].value) else SlotOf(l, id)
    else if id == NextSlot(l.table) && pushOk then
      Some(FlowTable.Flow(key, kind, l.pool[|l.pool| - 1], now, tcp, false, l.nextOwner))
    else SlotOf(l, id)
  }

  function Ticked(slot: Slot, recv: Recv, tso: bool, now: nat): Slot
    requires slot.Some? ==> ConnOk(slot.value)
  {
    if slot.Some? && !slot.value.closing && slot.value.tcp.Some?
    then Stepped(slot.value, tso, TimerTick(recv, now), slot.value.lastActive)
    else slot
  }

  function Reclaimed(slot: Slot, now: nat): Slot {
    if slot.Some? && !slot.value.closing && slot.value.lastActive + FLOW_EXPIRY < now then GivenUp(slot.value)
    else slot
  }

  /** The answer to the read of the flow in slot `id`: reads go to the flows that are due, in order of their slots. */
  function ReadFor(l: Loop, id: nat, recvs: seq<Recv>, now: nat): Recv {
    if now < RTO || id > |l.table.flows| then Again
    else NthRead(recvs, |TcpTimerDue(l.table.flows[..id], now - RTO)|)
  }

  function NthRead(recvs: seq<Recv>, n: nat): Recv { if n < |recvs| then recvs[n] else Again }

  /** What an event makes of slot `id`. */
  function SlotAfter(l: Loop, tso: bool, e: LoopEvent, id: nat): Slot
    requires Safe(l)
  {
    var slot := SlotOf(l, id);
    match e
    case Takes(_) => slot
    case Completes(op, outcome, recv, now) =>
      if Possible(l, e) && l.ops[op].slot == id then Completed(slot.value, outcome, recv, tso, now) else slot
    case Segment(key, h, mss, wscale, payload, accept, recv, allowed, pushOk, now) =>
      if key in l.table.byKey then
        if l.table.byKey[key] != id then slot
        else if slot.value.tcp.None? then Some(slot.value.(lastActive := now))
        else Stepped(slot.value, tso, FromGuest(h, payload, accept, recv, now), now)
      else if h.flags.syn && !h.flags.ack && !h.flags.rst && allowed then
        AfterOpening(l, id, key, TcpKind, Some(Open(h.seqno, h.window, mss, wscale, now)), now, pushOk)
      else slot
    case Datagram(key, kind, allowed, pushOk, now) =>
      if key in l.table.byKey then
        if l.table.byKey[key] == id then Some(slot.value.(lastActive := now)) else slot
      else if allowed && !kind.TcpKind? then AfterOpening(l, id, key, kind, None, now, pushOk)
      else slot
    case Timer(recvs, now) => Reclaimed(Ticked(slot, ReadFor(l, id, recvs, now), tso, now), now)
  }

  // ---------------------------------------------------------------------------------------------
  // The handlers do exactly that
  // ---------------------------------------------------------------------------------------------

  lemma RemovedSlot(l: Loop, id: nat, j: nat)
    ensures SlotOf(RemoveFlow(l, id), j)
            == if j == id && Occupied(l.table, id) then GivenUp(l.table.flows[id].value) else SlotOf(l, j)
  {
  }

  lemma FreedSlot(l: Loop, id: nat, j: nat)
    ensures SlotOf(FreeSlot(l, id), j) == if j == id then None else SlotOf(l, j)
  {
  }

  lemma SettledSlot(l: Loop, id: nat, f: FlowTable.Flow, polled: bool, j: nat)
    requires Occupied(l.table, id)
    ensures SlotOf(Settle(l, id, f, polled), j)
            == if j != id then SlotOf(l, j)
               else if f.tcp.Some? && f.tcp.value.gone.Some? then GivenUp(f) else Some(f)
  {
    var l1 := PutFlow(l, id, f);
    var l2 := if polled then PushOp(l1, id) else l1;
    RemovedSlot(l2, id, j);
  }

  lemma HandledSlot(l: Loop, id: nat, c': Conn, lastActive: nat, j: nat)
    requires ConnOf(l, id).Some?
    ensures SlotOf(Handled(l, id, c', lastActive), j)
            == if j == id then WithConn(l.table.flows[id].value, c', lastActive) else SlotOf(l, j)
  {
    var f := l.table.flows[id].value;
    SettledSlot(l, id, f.(lastActive := lastActive, tcp := Some(c')), c'.io.polls > f.tcp.value.io.polls, j);
  }

  lemma AddedSlot(l: Loop, f: FlowTable.Flow, pushOk: bool, id: nat)
    requires FreeOk(l.table) && l.pool != []
    ensures Occupied(AddFlow(l, f).table, NextSlot(l.table))
    ensures var l', next := AddFlow(l, f), NextSlot(l.table);
            SlotOf(if pushOk then PushOp(l', next) else FreeSlot(l', next), id)
            == if id == next && pushOk then Some(f) else SlotOf(l, id)
  {
    InsertCount(l.table, f);
    FreedSlot(AddFlow(l, f), NextSlot(l.table), id);
  }

  lemma OpenedSlot(l: Loop, key: Key, kind: Kind, tcp: Option<Conn>, now: nat, pushOk: bool, id: nat)
    requires Safe(l)
    ensures SlotOf(OpenFlow(l, key, kind, tcp, now, pushOk), id) == AfterOpening(l, id, key, kind, tcp, now, pushOk)
  {
    if l.pool == [] {
      var victim := LruEvictable(l.table.flows);
      if victim.Some? { RemovedSlot(l, victim.value, id); }
    } else {
      AddedSlot(l, NewFlow(l, key, kind, tcp, now), pushOk, id);
    }
  }

  lemma SegmentSlot(
    l: Loop, id: nat, h: Header, payload: seq<byte>, accept: nat, recv: Recv, tso: bool, now: nat, j: nat)
    requires Safe(l) && Lively(l) && Live(l.table, id)
    ensures var f := l.table.flows[id].value;
            SlotOf(SegmentTo(l, id, h, payload, accept, recv, tso, now), j)
            == if j != id then SlotOf(l, j)
               else if f.tcp.None? then Some(f.(lastActive := now))
               else Stepped(f, tso, FromGuest(h, payload, accept, recv, now), now)
  {
    if ConnOf(l, id).Some? {
      var c := ConnOf(l, id).value;
      HandledSlot(l, id, HandleGuest(c, h, payload, accept, recv, tso, now), now, j);
      assert Step(c, tso, FromGuest(h, payload, accept, recv, now))
          == HandleGuest(c, h, payload, accept, recv, tso, now);
    }
  }

  lemma PollSlot(l: Loop, id: nat, outcome: Outcome, recv: Recv, tso: bool, now: nat, j: nat)
    requires Safe(l) && Lively(l) && Live(l.table, id) && ConnOf(l, id).Some? && !outcome.Cancelled?
    ensures SlotOf(PollDone(l, id, outcome, recv, tso, now), j)
            == if j == id then Completed(l.table.flows[id].value, outcome, recv, tso, now) else SlotOf(l, j)
  {
    var c, f := ConnOf(l, id).value, l.table.flows[id].value;
    if outcome.Ready? {
      var Ready(pollErr, pollHup, sockErr) := outcome;
      var e := SocketReady(pollErr, pollHup, sockErr, recv, now);
      assert Step(c, tso, e) == HandleReady(c, pollErr, pollHup, sockErr, recv, tso, now);
      HandledSlot(l, id, HandleReady(c, pollErr, pollHup, sockErr, recv, tso, now), now, j);
    } else {
      assert Step(c, tso, PollFailed) == Reset(c);
      HandledSlot(l, id, Reset(c), f.lastActive, j);
    }
  }

  lemma CompletedSlot(l: Loop, id: nat, outcome: Outcome, recv: Recv, tso: bool, now: nat, j: nat)
    requires Safe(l) && Lively(l) && Occupied(l.table, id)
    ensures SlotOf(HandleCompletion(l, id, outcome, recv, tso, now), j)
            == if j == id then Completed(l.table.flows[id].value, outcome, recv, tso, now) else SlotOf(l, j)
  {
    var f := l.table.flows[id].value;
    if f.closing || outcome.Cancelled? {
      FreedSlot(l, id, j);
    } else if f.tcp.Some? {
      PollSlot(l, id, outcome, recv, tso, now, j);
    }
  }

  // ---------------------------------------------------------------------------------------------
  // Timer
  // ---------------------------------------------------------------------------------------------

  lemma TickSlot(l: Loop, id: nat, recv: Recv, tso: bool, now: nat, j: nat)
    requires Safe(l) && Lively(l) && Live(l.table, id) && ConnOf(l, id).Some?
    ensures SlotOf(Tick(l, id, recv, tso, now), j)
            == if j == id then Ticked(SlotOf(l, id), recv, tso, now) else SlotOf(l, j)
  {
    var c := ConnOf(l, id).value;
    assert Step(c, tso, TimerTick(recv, now)) == HandleTimer(c, recv, tso, now);
    HandledSlot(l, id, HandleTimer(c, recv, tso, now), l.table.flows[id].value.lastActive, j);
  }

  lemma TickedLively(slot: Slot, recv: Recv, tso: bool, now: nat)
    requires SlotLively(slot) && (slot.Some? ==> ConnOk(slot.value))
    ensures SlotLively(Ticked(slot, recv, tso, now))
  {
    if slot.Some? && slot.value.tcp.Some? {
      WithConnLively(slot.value, Step(slot.value.tcp.value, tso, TimerTick(recv, now)), slot.value.lastActive);
    }
  }

  lemma LivelySlot(l: Loop, id: nat)
    requires Safe(l) && Lively(l)
    ensures SlotLively(SlotOf(l, id)) && (SlotOf(l, id).Some? ==> ConnOk(SlotOf(l, id).value))
  {
  }

  lemma TickLively(l: Loop, id: nat, recv: Recv, tso: bool, now: nat)
    requires Safe(l) && Lively(l) && Live(l.table, id) && ConnOf(l, id).Some?
    ensures Lively(Tick(l, id, recv, tso, now))
  {
    var l' := Tick(l, id, recv, tso, now);
    forall j: nat ensures SlotLively(SlotOf(l', j)) {
      TickSlot(l, id, recv, tso, now, j);
      LivelySlot(l, j);
      TickedLively(SlotOf(l, j), recv, tso, now);
    }
    SlotsLively(l');
  }

  /** Slots with live TCP flows, each once. */
  ghost predicate Timed(l: Loop, ids: seq<nat>) {
    && (forall i :: 0 <= i < |ids| ==> Live(l.table, ids[i]) && ConnOf(l, ids[i]).Some?)
    && (forall i, j :: 0 <= i < j < |ids| ==> ids[i] != ids[j])
  }

  lemma TimedRest(l: Loop, ids: seq<nat>, recv: Recv, tso: bool, now: nat)
    requires Safe(l) && Lively(l) && ids != [] && Timed(l, ids)
    ensures Timed(Tick(l, ids[0], recv, tso, now), ids[1..])
  {
    var l', rest := Tick(l, ids[0], recv, tso, now), ids[1..];
    forall i | 0 <= i < |rest| ensures Live(l'.table, rest[i]) && ConnOf(l', rest[i]).Some? {
      assert rest[i] == ids[i + 1] && rest[i] != ids[0];
      TickSlot(l, ids[0], recv, tso, now, rest[i]);
      assert SlotOf(l', rest[i]) == SlotOf(l, rest[i]);
    }
  }

  /** The loop, with the slots that are still to be ticked and the reads left for them. */
  datatype Round = Round(l: Loop, ids: seq<nat>, recvs: seq<Recv>)

  ghost predicate RoundOk(r: Round) { AsOne(Safe(r.l)) && AsOne(Lively(r.l)) && AsOne(Timed(r.l, r.ids)) }

  ghost function RoundEnd(r: Round, tso: bool, now: nat): Loop
    requires RoundOk(r)
  {
    TickAll(r.l, r.ids, r.recvs, tso, now)
  }

  lemma FirstTick(r: Round, tso: bool, now: nat, j: nat) returns (r': Round)
    requires RoundOk(r) && r.ids != []
    ensures RoundOk(r') && RoundEnd(r', tso, now) == RoundEnd(r, tso, now) && r'.ids == r.ids[1..]
    ensures r'.recvs == if r.recvs == [] then [] else r.recvs[1..]
    ensures j != r.ids[0] ==> SlotOf(r'.l, j) == SlotOf(r.l, j)
    ensures j == r.ids[0] ==>
              (SlotOf(r.l, j).Some? ==> ConnOk(SlotOf(r.l, j).value))
              && SlotOf(r'.l, j) == Ticked(SlotOf(r.l, j), NthRead(r.recvs, 0), tso, now)
  {
    var recv := NthRead(r.recvs, 0);
    TickSafe(r.l, r.ids[0], recv, tso, now);
    TickLively(r.l, r.ids[0], recv, tso, now);
    TimedRest(r.l, r.ids, recv, tso, now);
    TickSlot(r.l, r.ids[0], recv, tso, now, j);
    r' := Round(Tick(r.l, r.ids[0], recv, tso, now), r.ids[1..], if r.recvs == [] then [] else r.recvs[1..]);
  }

  lemma {:induction false} OthersNotTicked(r: Round, tso: bool, now: nat, j: nat)
    requires RoundOk(r) && j !in r.ids
    ensures SlotOf(RoundEnd(r, tso, now), j) == SlotOf(r.l, j)
    decreases |r.ids|
  {
    if r.ids != [] {
      var r' := FirstTick(r, tso, now, j);
      OthersNotTicked(r', tso, now, j);
    }
  }

  /** Slot `j`, holding `slot`, comes next but `n`; `recv` answers its read, and `end` is where it all leads. */
  ghost predicate Awaits(r: Round, tso: bool, now: nat, n: nat, j: nat, recv: Recv, slot: Slot, end: Loop) {
    && RoundOk(r) && RoundEnd(r, tso, now) == end && SlotOf(r.l, j) == slot
    && n < |r.ids| && r.ids[n] == j && NthRead(r.recvs, n) == recv
  }

  lemma ComesNearer(r: Round, tso: bool, now: nat, n: nat, j: nat, recv: Recv, slot: Slot, end: Loop)
      returns (r': Round)
    requires n > 0 && Awaits(r, tso, now, n, j, recv, slot, end)
    ensures AsOne(Awaits(r', tso, now, n - 1, j, recv, slot, end))
  {
    r' := FirstTick(r, tso, now, j);
  }

  /** The round once the slots before `j` are done with. */
  lemma {:induction false} TickUpTo(r: Round, tso: bool, now: nat, n: nat, j: nat, recv: Recv, slot: Slot, end: Loop)
      returns (r': Round)
    requires AsOne(Awaits(r, tso, now, n, j, recv, slot, end))
    ensures AsOne(Awaits(r', tso, now, 0, j, recv, slot, end))
    decreases n
  {
    if n == 0 {
      r' := r;
    } else {
      var r1 := ComesNearer(r, tso, now, n, j, recv, slot, end);
      r' := TickUpTo(r1, tso, now, n - 1, j, recv, slot, end);
    }
  }

  /** The loop over the flows that are due ticks each of them once, with its own read, and nobody else. */
  lemma EachTicked(r: Round, tso: bool, now: nat, n: nat, j: nat, recv: Recv)
    requires RoundOk(r) && n < |r.ids| && r.ids[n] == j && NthRead(r.recvs, n) == recv
    ensures SlotOf(r.l, j).Some? ==> ConnOk(SlotOf(r.l, j).value)
    ensures SlotOf(RoundEnd(r, tso, now), j) == Ticked(SlotOf(r.l, j), recv, tso, now)
  {
    LivelySlot(r.l, j);
    var r1 := TickUpTo(r, tso, now, n, j, recv, SlotOf(r.l, j), RoundEnd(r, tso, now));
    var r2 := FirstTick(r1, tso, now, j);
    assert j !in r2.ids;
    OthersNotTicked(r2, tso, now, j);
  }

  /** Every slot given up at most once. */
  lemma {:induction false} RemoveAllSlot(l: Loop, ids: seq<nat>, j: nat)
    requires Safe(l) && forall i, k :: 0 <= i < k < |ids| ==> ids[i] != ids[k]
    ensures SlotOf(RemoveAll(l, ids), j)
            == if j in ids && Occupied(l.table, j) then GivenUp(l.table.flows[j].value) else SlotOf(l, j)
    decreases |ids|
  {
    if ids != [] {
      RemoveFlowSafe(l, ids[0]);
      RemovedSlot(l, ids[0], j);
      RemoveAllSlot(RemoveFlow(l, ids[0]), ids[1..], j);
    }
  }

  // ---------------------------------------------------------------------------------------------
  // Who is due
  // ---------------------------------------------------------------------------------------------

  /** The position of a selected slot is the number of selected slots before it. */
  lemma {:induction false} SelectRank(flows: Slots, p: FlowTable.Flow -> bool, id: nat)
    requires id < |flows| && flows[id].Some? && p(flows[id].value)
    ensures var n := |Select(flows[..id], p)|; n < |Select(flows, p)| && Select(flows, p)[n] == id
    decreases |flows|
  {
    var last := |flows| - 1;
    if id < last {
      SelectRank(flows[..last], p, id);
      assert flows[..last][..id] == flows[..id];
    } else {
      assert flows[..id] == flows[..last];
    }
  }

  lemma DueIsTimed(l: Loop, cutoff: nat)
    ensures Timed(l, TcpTimerDue(l.table.flows, cutoff))
  {
    var ids := TcpTimerDue(l.table.flows, cutoff);
    forall i | 0 <= i < |ids| ensures Live(l.table, ids[i]) && ConnOf(l, ids[i]).Some? {
      assert ids[i] in ids;
    }
  }

  lemma DueRank(flows: Slots, cutoff: nat, id: nat)
    requires id in TcpTimerDue(flows, cutoff)
    ensures id <= |flows|
    ensures var n := |TcpTimerDue(flows[..id], cutoff)|;
            n < |TcpTimerDue(flows, cutoff)| && TcpTimerDue(flows, cutoff)[n] == id
  {
    SelectRank(flows, (f: FlowTable.Flow) => !f.closing && f.tcp.Some? && TimerDue(f.tcp.value.t, cutoff), id);
  }

  /** A tick leaves a flow that is not due as it is. */
  lemma IdleTick(c: Conn, recv: Recv, tso: bool, now: nat)
    requires Inv(c) && (now < RTO || !TimerDue(c.t, now - RTO))
    ensures Step(c, tso, TimerTick(recv, now)) == c
  {
  }

  lemma NotDue(l: Loop, id: nat, recv: Recv, tso: bool, now: nat)
    requires Safe(l) && Lively(l) && (now < RTO || id !in TcpTimerDue(l.table.flows, now - RTO))
    ensures SlotOf(l, id).Some? ==> ConnOk(SlotOf(l, id).value)
    ensures Ticked(SlotOf(l, id), recv, tso, now) == SlotOf(l, id)
  {
    LivelySlot(l, id);
    IdleSlot(SlotOf(l, id), recv, tso, now);
  }

  lemma IdleSlot(slot: Slot, recv: Recv, tso: bool, now: nat)
    requires SlotLively(slot) && (slot.Some? ==> ConnOk(slot.value))
    requires slot.Some? && !slot.value.closing && slot.value.tcp.Some? ==>
               now < RTO || !TimerDue(slot.value.tcp.value.t, now - RTO)
    ensures Ticked(slot, recv, tso, now) == slot
  {
    if slot.Some? && !slot.value.closing && slot.value.tcp.Some? { IdleTick(slot.value.tcp.value, recv, tso, now); }
  }

  lemma DuePosition(l: Loop, ids: seq<nat>, recvs: seq<Recv>, now: nat, id: nat, recv: Recv) returns (n: nat)
    requires now >= RTO && ids == TcpTimerDue(l.table.flows, now - RTO) && id in ids
    requires recv == ReadFor(l, id, recvs, now)
    ensures n < |ids| && ids[n] == id && NthRead(recvs, n) == recv
  {
    DueRank(l.table.flows, now - RTO, id);
    n := |TcpTimerDue(l.table.flows[..id], now - RTO)|;
  }

  lemma DueTicked(l: Loop, ids: seq<nat>, recvs: seq<Recv>, tso: bool, now: nat, id: nat, recv: Recv)
    requires RoundOk(Round(l, ids, recvs)) && now >= RTO && ids == TcpTimerDue(l.table.flows, now - RTO) && id in ids
    requires recv == ReadFor(l, id, recvs, now)
    ensures SlotOf(l, id).Some? ==> ConnOk(SlotOf(l, id).value)
    ensures SlotOf(TickAll(l, ids, recvs, tso, now), id) == Ticked(SlotOf(l, id), recv, tso, now)
  {
    var n := DuePosition(l, ids, recvs, now, id, recv);
    EachTicked(Round(l, ids, recvs), tso, now, n, id, recv);
  }

  lemma TickedSlot(l: Loop, ids: seq<nat>, recvs: seq<Recv>, tso: bool, now: nat, id: nat, recv: Recv)
    requires Safe(l) && Lively(l) && now >= RTO && ids == TcpTimerDue(l.table.flows, now - RTO)
    requires recv == ReadFor(l, id, recvs, now)
    ensures SlotOf(l, id).Some? ==> ConnOk(SlotOf(l, id).value)
    ensures SlotOf(TickAll(l, ids, recvs, tso, now), id) == Ticked(SlotOf(l, id), recv, tso, now)
  {
    DueIsTimed(l, now - RTO);
    assert RoundOk(Round(l, ids, recvs));
    if id in ids {
      DueTicked(l, ids, recvs, tso, now, id, recv);
    } else {
      OthersNotTicked(Round(l, ids, recvs), tso, now, id);
      NotDue(l, id, recv, tso, now);
    }
  }

  lemma ReclaimedSlot(l: Loop, now: nat, id: nat)
    requires Safe(l) && now >= FLOW_EXPIRY
    ensures SlotOf(RemoveAll(l, Expired(l.table.flows, now - FLOW_EXPIRY)), id) == Reclaimed(SlotOf(l, id), now)
  {
    RemoveAllSlot(l, Expired(l.table.flows, now - FLOW_EXPIRY), id);
  }

  /**
    The timer, slot by slot: every live TCP flow does one tick with its own read, and then every live flow
    idle for too long is given up; no other slot is touched.
   */
  lemma TimerSlot(l: Loop, recvs: seq<Recv>, tso: bool, now: nat, id: nat, recv: Recv)
    requires Safe(l) && Lively(l) && recv == ReadFor(l, id, recvs, now)
    ensures SlotOf(l, id).Some? ==> ConnOk(SlotOf(l, id).value)
    ensures SlotOf(HandleTimerEvent(l, recvs, tso, now), id) == Reclaimed(Ticked(SlotOf(l, id), recv, tso, now), now)
  {
    LivelySlot(l, id);
    var l1 := if now < RTO then l else TickAll(l, TcpTimerDue(l.table.flows, now - RTO), recvs, tso, now);
    if now < RTO {
      NotDue(l, id, recv, tso, now);
    } else {
      TickedSlot(l, TcpTimerDue(l.table.flows, now - RTO), recvs, tso, now, id, recv);
    }
    assert SlotOf(l1, id) == Ticked(SlotOf(l, id), recv, tso, now);
    if now >= FLOW_EXPIRY { ReclaimedSlot(l1, now, id); }
  }

  // ---------------------------------------------------------------------------------------------
  // Every event, and every run
  // ---------------------------------------------------------------------------------------------

  lemma CompletesSlots(l: Loop, tso: bool, e: LoopEvent, id: nat)
    requires Safe(l) && Lively(l) && e.Completes?
    ensures SlotOf(StepLoop(l, tso, e), id) == SlotAfter(l, tso, e, id)
  {
    if Possible(l, e) {
      var l1, slot := DropOp(l, e.op), l.ops[e.op].slot;
      DropOpSafe(l, e.op);
      assert Lively(l1) && Occupied(l1.table, slot);
      CompletedSlot(l1, slot, e.outcome, e.recv, tso, e.now, id);
      assert StepLoop(l, tso, e) == HandleCompletion(l1, slot, e.outcome, e.recv, tso, e.now);
    }
  }

  lemma SegmentSlots(l: Loop, tso: bool, e: LoopEvent, id: nat)
    requires Safe(l) && Lively(l) && e.Segment?
    ensures SlotOf(StepLoop(l, tso, e), id) == SlotAfter(l, tso, e, id)
  {
    var Segment(key, h, mss, wscale, payload, accept, recv, allowed, pushOk, now) := e;
    if key in l.table.byKey {
      SegmentSlot(l, l.table.byKey[key], h, payload, accept, recv, tso, now, id);
      assert StepLoop(l, tso, e) == SegmentTo(l, l.table.byKey[key], h, payload, accept, recv, tso, now);
    } else {
      OpenedSlot(l, key, TcpKind, Some(Open(h.seqno, h.window, mss, wscale, now)), now, pushOk, id);
    }
  }

  lemma DatagramSlot(l: Loop, key: Key, kind: Kind, allowed: bool, pushOk: bool, now: nat, id: nat)
    requires Safe(l)
    ensures SlotOf(HandleDatagram(l, key, kind, allowed, pushOk, now), id)
            == if key in l.table.byKey then
                 if l.table.byKey[key] == id then Some(SlotOf(l, id).value.(lastActive := now)) else SlotOf(l, id)
               else if allowed && !kind.TcpKind? then AfterOpening(l, id, key, kind, None, now, pushOk)
               else SlotOf(l, id)
  {
    if key !in l.table.byKey { OpenedSlot(l, key, kind, None, now, pushOk, id); }
  }

  lemma DatagramSlots(l: Loop, tso: bool, e: LoopEvent, id: nat)
    requires Safe(l) && e.Datagram?
    ensures SlotOf(StepLoop(l, tso, e), id) == SlotAfter(l, tso, e, id)
  {
    DatagramSlot(l, e.key, e.kind, e.allowed, e.pushOk, e.now, id);
    assert StepLoop(l, tso, e) == HandleDatagram(l, e.key, e.kind, e.allowed, e.pushOk, e.now);
  }

  lemma TakesSlots(l: Loop, tso: bool, e: LoopEvent, id: nat)
    requires Safe(l) && e.Takes?
    ensures SlotOf(StepLoop(l, tso, e), id) == SlotAfter(l, tso, e, id)
  {
    assert KernelTakes(l, e.inTime).table == l.table;
  }

  lemma TimerSlots(l: Loop, tso: bool, e: LoopEvent, id: nat)
    requires Safe(l) && Lively(l) && e.Timer?
    ensures SlotOf(StepLoop(l, tso, e), id) == SlotAfter(l, tso, e, id)
  {
    TimerSlot(l, e.recvs, tso, e.now, id, ReadFor(l, id, e.recvs, e.now));
    assert StepLoop(l, tso, e) == HandleTimerEvent(l, e.recvs, tso, e.now);
  }

  /** Every event of the loop does to every slot exactly what `SlotAfter` says. */
  lemma StepSlots(l: Loop, tso: bool, e: LoopEvent, id: nat)
    requires Safe(l) && Lively(l)
    ensures SlotOf(StepLoop(l, tso, e), id) == SlotAfter(l, tso, e, id)
  {
    match e
    case Takes(_) => TakesSlots(l, tso, e, id);
    case Completes(_, _, _, _) => CompletesSlots(l, tso, e, id);
    case Segment(_, _, _, _, _, _, _, _, _, _) => SegmentSlots(l, tso, e, id);
    case Datagram(_, _, _, _, _) => DatagramSlots(l, tso, e, id);
    case Timer(_, _) => TimerSlots(l, tso, e, id);
  }
}
