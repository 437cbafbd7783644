/** A concrete run of the event loop in which a failed connect poll leaks the only buffer for good. */
module LeakExample {
  import opened Words
  import opened TcpModel
  import opened FlowTable
  import opened EventLoop
  import opened Dispatch
  import opened Wakeups

  const KEY := Key(6, 40000, [192, 0, 2, 1], 443)
  const SYN := Header(0, 0, Flags(true, false, false, false, false), 1000)
  const GUEST_SYN := LoopEvent.Segment(KEY, SYN, None, None, [], 0, Again, true, true, 0)
  /** The poll completes with an error that is no cancellation. */
  const POLL_FAILS := Completes(0, Error(false), Again, 0)

  lemma RunLoopAppend(l: Loop, tso: bool, events: seq<LoopEvent>, e: LoopEvent)
    requires Safe(l)
    ensures RunLoop(l, tso, events + [e]) == StepLoop(RunLoop(l, tso, events), tso, e)
  {
    assert (events + [e])[..|events|] == events;
  }

  lemma Extend(l: Loop, tso: bool, events: seq<LoopEvent>, e: LoopEvent, longer: seq<LoopEvent>, mid: Loop)
    requires Safe(l) && longer == events + [e] && RunLoop(l, tso, events) == mid
    ensures Safe(mid) && RunLoop(l, tso, longer) == StepLoop(mid, tso, e)
  {
    RunLoopAppend(l, tso, events, e);
  }

  /** One TCP flow in slot 0, whose connect poll is operation 0. */
  ghost predicate Connecting(l: Loop, queued: bool) {
    && Live(l.table, 0) && l.table.flows[0].value.tcp.Some? && l.buffers == 2
    && 0 in l.ops && l.ops[0] == Op(0, 0, queued, false)
    && (queued ==> l.sq == [Submit(0)])
  }

  lemma OpenStep(l: Loop, c: Conn)
    requires Safe(l) && l.table == Table([], [], map[]) && l.pool == [0] && l.buffers == 2
    requires l.ops == map[] && l.sq == [] && l.nextOp == 0 && l.nextOwner == 0
    ensures Connecting(OpenFlow(l, KEY, TcpKind, Some(c), 0, true), true)
  {
  }

  lemma SynStep()
    ensures Connecting(StepLoop(Start(2), false, GUEST_SYN), true)
  {
    var l := Start(2);
    assert l.pool == [0];
    OpenStep(l, Open(SYN.seqno, SYN.window, None, None, 0));
    assert StepLoop(l, false, GUEST_SYN)
        == OpenFlow(l, KEY, TcpKind, Some(Open(SYN.seqno, SYN.window, None, None, 0)), 0, true);
  }

  lemma TakeStep(l: Loop)
    requires Safe(l) && Connecting(l, true)
    ensures Connecting(StepLoop(l, false, Takes(true)), false)
  {
  }

  lemma FailStep(l: Loop)
    requires Safe(l) && Connecting(l, false)
    ensures Leaked(StepLoop(l, false, POLL_FAILS), 0) && StepLoop(l, false, POLL_FAILS).buffers == 2
  {
    StepLeaks(l, 0, Error(false), Again, false, 0);
  }

  /** The only buffer besides the tap's belongs to the leaked slot. */
  lemma PoolDry(l: Loop)
    requires Safe(l) && Leaked(l, 0) && l.buffers == 2
    ensures l.pool == []
  {
    assert |l.table.flows| == 1 && l.table.flows[..0] == [];
  }

  lemma ReachSyn(one: seq<LoopEvent>)
    requires one == [GUEST_SYN]
    ensures Connecting(RunLoop(Start(2), false, one), true)
  {
    Extend(Start(2), false, [], GUEST_SYN, one, Start(2));
    SynStep();
  }

  lemma ReachConnecting(one: seq<LoopEvent>, two: seq<LoopEvent>)
    requires one == [GUEST_SYN] && two == one + [Takes(true)]
    ensures Connecting(RunLoop(Start(2), false, two), false)
  {
    ReachSyn(one);
    Extend(Start(2), false, one, Takes(true), two, RunLoop(Start(2), false, one));
    TakeStep(RunLoop(Start(2), false, one));
  }

  lemma ReachLeak(one: seq<LoopEvent>, two: seq<LoopEvent>, three: seq<LoopEvent>)
    requires one == [GUEST_SYN] && two == one + [Takes(true)] && three == two + [POLL_FAILS]
    ensures Leaked(RunLoop(Start(2), false, three), 0) && RunLoop(Start(2), false, three).buffers == 2
  {
    ReachConnecting(one, two);
    Extend(Start(2), false, two, POLL_FAILS, three, RunLoop(Start(2), false, two));
    FailStep(RunLoop(Start(2), false, two));
  }

  const FAILURE := [GUEST_SYN, Takes(true), POLL_FAILS]

  /** Where the run gets to. */
  ghost function Failed(): (l: Loop)
    ensures Safe(l)
  {
    RunLoop(Start(2), false, FAILURE)
  }

  lemma FailureLeaks()
    ensures Leaked(Failed(), 0) && Failed().buffers == 2
  {
    ReachLeak([GUEST_SYN], [GUEST_SYN, Takes(true)], FAILURE);
  }

  /** The run leaks the slot, and whatever follows, no buffer is ever free again. */
  lemma FailureLeaksForGood(events: seq<LoopEvent>)
    ensures Leaked(Failed(), 0)
    ensures Leaked(RunLoop(Failed(), false, events), 0) && RunLoop(Failed(), false, events).pool == []
  {
    FailureLeaks();
    LeakIsForever(Failed(), false, events, 0);
    PoolDry(RunLoop(Failed(), false, events));
  }
}
