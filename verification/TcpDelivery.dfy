/** Whole-run results for one flow: both byte streams, and what a graceful close means. */
module TcpDelivery {
  import opened Words
  import opened TcpModel
  import opened TcpInvariant
  import opened TcpEffects
  import opened TcpLabels

  // ---------------------------------------------------------------------------------------------
  // Host to guest
  // ---------------------------------------------------------------------------------------------

  /** Everything on the tap is labelled with its true offset, and so will be what follows. */
  ghost predicate InSync(c: Conn) {
    && Labels(c.io.tap, 0, 0)
    && (c.t.state.Established? && !c.t.hostFin.Acked? ==> Lag(c) == 0)
    && (c.t.state.Connecting? ==> c.io.fromHost == [] && c.t.hostFin.NotSent?)
  }

  /** A SYN comes only while the acknowledged data is a whole number of sequence spaces, such as none. */
  ghost predicate SynSafe(c: Conn, e: Event) {
    IsSyn(c, e) && !c.t.hostFin.Acked? ==> AckedBytes(c) % TWO32 == 0
  }

  /** A SYN puts `seqUna` back to the start of the stream: that is in sync exactly when the stream starts there. */
  lemma SynSync(c: Conn)
    ensures Lag(HandleSyn(c)) == 0 <==> AckedBytes(c) % TWO32 == 0
  {
  }

  lemma LabelsExtend(tap: seq<Segment>, tap': seq<Segment>)
    requires tap <= tap' && Labels(tap, 0, 0) && Labels(tap', |tap|, 0)
    ensures Labels(tap', 0, 0)
  {
    forall i | 0 <= i < |tap'| && (tap'[i].payload != [] || tap'[i].flags.fin)
      ensures tap'[i].seqno == Wrap32(ISN + 1 + tap'[i].at)
    {
      if i < |tap| { assert tap'[i] == tap[i]; }
    }
  }

  /** Once our FIN is acked the labels of later segments do not matter: there is neither data nor FIN. */
  lemma BareLabels(tap: seq<Segment>, from: nat)
    requires Bare(tap, from)
    ensures Labels(tap, from, 0)
  {
  }

  lemma AppendBare(tap: seq<Segment>, s: Segment)
    requires Labels(tap, 0, 0) && s.payload == [] && !s.flags.fin
    ensures Labels(tap + [s], 0, 0)
  {
    LabelsExtend(tap, tap + [s]);
  }

  lemma ConnectedInSync(c: Conn)
    requires Shape(c.t) && InSync(c) && c.t.state.Connecting?
    ensures InSync(Reset(c))
    ensures InSync(Arm(SendSynAck(c.(t := c.t.(state := Established)))))
  {
    AppendBare(c.io.tap, Control(c, RST_ACK));
    AppendBare(c.io.tap, Segment(ISN, c.t.seqFromGuest, SYN_ACK, SynAckOptions(c.t.guestWscale.Some?), [], None, -1));
  }

  lemma ConnectingInSync(c: Conn, tso: bool, e: Event)
    requires Inv(c) && InSync(c) && c.t.state.Connecting?
    ensures InSync(Step(c, tso, e))
  {
    match e
    case FromGuest(_, _, _, _, _) =>
    case SocketReady(_, _, _, _, _) => ConnectedInSync(c.(t := c.t.(pollArmed := false)));
    case PollFailed => ConnectedInSync(c);
    case TimerTick(_, now) => assert now >= RTO ==> !TimerDue(c.t, now - RTO);
  }

  lemma StepInSync(c: Conn, tso: bool, e: Event)
    requires Inv(c) && InSync(c) && SynSafe(c, e)
    ensures InSync(Step(c, tso, e))
  {
    if c.t.state.Connecting? {
      ConnectingInSync(c, tso, e);
    } else if IsSyn(c, e) {
      SynSync(c);
      LabelsExtend(c.io.tap, HandleSyn(c).io.tap);
    } else {
      StepConsistent(c, tso, e);
      var c' := Step(c, tso, e);
      if c.t.hostFin.Acked? { BareLabels(c'.io.tap, |c.io.tap|); }
      LabelsExtend(c.io.tap, c'.io.tap);
    }
  }

  ghost predicate SynSafeRun(c: Conn, tso: bool, events: seq<Event>)
    requires Inv(c)
  {
    forall i :: 0 <= i < |events| ==> SynSafe(Run(c, tso, events[..i]), events[i])
  }

  lemma SynSafePrefix(c: Conn, tso: bool, events: seq<Event>, n: nat)
    requires Inv(c) && SynSafeRun(c, tso, events) && n <= |events|
    ensures SynSafeRun(c, tso, events[..n])
  {
    forall i | 0 <= i < n ensures SynSafe(Run(c, tso, events[..n][..i]), events[..n][i]) {
      assert events[..n][..i] == events[..i];
    }
  }

  lemma {:induction false} RunInSync(c: Conn, tso: bool, events: seq<Event>)
    requires Inv(c) && InSync(c) && SynSafeRun(c, tso, events)
    ensures InSync(Run(c, tso, events))
    decreases |events|
  {
    if events != [] {
      var n := |events| - 1;
      SynSafePrefix(c, tso, events, n);
      RunInSync(c, tso, events[..n]);
      StepInSync(Run(c, tso, events[..n]), tso, events[n]);
    }
  }

  /** The payload is the host stream at the offset that the sequence number names. */
  ghost predicate Faithful(s: Segment, stream: seq<byte>) {
    && 0 <= s.at && s.at + |s.payload| <= |stream|
    && s.payload == stream[s.at..s.at + |s.payload|]
    && s.seqno == Wrap32(ISN + 1 + s.at)
  }

  ghost predicate FaithfulTap(tap: seq<Segment>, stream: seq<byte>) {
    forall s :: s in tap && s.payload != [] ==> Faithful(s, stream)
  }

  lemma InSyncIsFaithful(c: Conn)
    requires Inv(c) && InSync(c)
    ensures FaithfulTap(c.io.tap, c.io.fromHost)
  {
    forall s | s in c.io.tap && s.payload != [] ensures Faithful(s, c.io.fromHost) {
      var i :| 0 <= i < |c.io.tap| && c.io.tap[i] == s;
    }
  }

  /** Safe SYNs are enough for every data segment to carry the host's bytes at the offset it names. */
  lemma SafeSynsSuffice(
    seqno: u32, window: u16, mss: Option<u16>, wscale: Option<byte>, start: nat, tso: bool, events: seq<Event>)
    requires SynSafeRun(Opened(seqno, window, mss, wscale, start), tso, events)
    ensures var c := Run(Opened(seqno, window, mss, wscale, start), tso, events);
            FaithfulTap(c.io.tap, c.io.fromHost)
  {
    RunInSync(Opened(seqno, window, mss, wscale, start), tso, events);
    InSyncIsFaithful(Run(Opened(seqno, window, mss, wscale, start), tso, events));
  }

  /** What a label is about: the bytes of a segment, or its FIN. */
  datatype Content = Bytes | Fin

  predicate Carries(s: Segment, k: Content) {
    match k
    case Bytes => s.payload != []
    case Fin => s.flags.fin
  }

  /** Every such segment from position `from` on names another offset than the one it stands for. */
  ghost predicate Mislabelled(tap: seq<Segment>, from: nat, k: Content) {
    forall i :: from <= i < |tap| && Carries(tap[i], k) ==> tap[i].seqno != Wrap32(ISN + 1 + tap[i].at)
  }

  lemma LagMislabels(c: Conn, c': Conn, k: Content)
    requires Consistent(c, c') && Lag(c) != 0
    ensures Mislabelled(c'.io.tap, |c.io.tap|, k)
  {
    forall i | |c.io.tap| <= i < |c'.io.tap| && Carries(c'.io.tap[i], k)
      ensures c'.io.tap[i].seqno != Wrap32(ISN + 1 + c'.io.tap[i].at)
    {
      WrapInjective(ISN + 1 + c'.io.tap[i].at - Lag(c), ISN + 1 + c'.io.tap[i].at);
    }
  }

  /** No event of the run is a SYN that an established flow answers. */
  ghost predicate NoSynRun(c: Conn, tso: bool, events: seq<Event>)
    requires Inv(c)
  {
    forall i :: 0 <= i < |events| ==> !IsSyn(Run(c, tso, events[..i]), events[i])
  }

  lemma NoSynPrefix(c: Conn, tso: bool, events: seq<Event>, n: nat)
    requires Inv(c) && NoSynRun(c, tso, events) && n <= |events|
    ensures NoSynRun(c, tso, events[..n])
  {
    forall i | 0 <= i < n ensures !IsSyn(Run(c, tso, events[..n][..i]), events[..n][i]) {
      assert events[..n][..i] == events[..i];
    }
  }

  /** Between SYNs the offset between sequence numbers and stream stays what it is, over whole runs. */
  lemma {:induction false} RunConsistent(c: Conn, tso: bool, events: seq<Event>)
    requires Inv(c) && c.t.state.Established? && NoSynRun(c, tso, events)
    ensures Consistent(c, Run(c, tso, events))
    decreases |events|
  {
    if events == [] {
      SameLag(c, c);
    } else {
      var n := |events| - 1;
      NoSynPrefix(c, tso, events, n);
      RunConsistent(c, tso, events[..n]);
      StepConsistent(Run(c, tso, events[..n]), tso, events[n]);
      ConsistentTrans(c, Run(c, tso, events[..n]), Run(c, tso, events));
    }
  }

  /** A flow that is out of step labels all data and every FIN wrongly, over every run up to the next SYN. */
  lemma OutOfSync(c: Conn, tso: bool, events: seq<Event>, k: Content)
    requires Inv(c) && c.t.state.Established? && Lag(c) != 0 && NoSynRun(c, tso, events)
    ensures Mislabelled(Run(c, tso, events).io.tap, |c.io.tap|, k)
  {
    RunConsistent(c, tso, events);
    LagMislabels(c, Run(c, tso, events), k);
  }

  // ---------------------------------------------------------------------------------------------
  // When exactly download fidelity holds
  // ---------------------------------------------------------------------------------------------

  /** The last SYN that an established flow answered found acknowledged data off a whole number of sequence spaces. */
  ghost predicate OutOfStep(c: Conn, tso: bool, events: seq<Event>)
    requires Inv(c)
    decreases |events|
  {
    events != []
    && var before, e := Run(c, tso, events[..|events| - 1]), events[|events| - 1];
       if IsSyn(before, e) then AckedBytes(before) % TWO32 != 0 else OutOfStep(c, tso, events[..|events| - 1])
  }

  /** No such segment from position `from` on. */
  ghost predicate Free(tap: seq<Segment>, from: nat, k: Content) {
    forall i :: from <= i < |tap| ==> !Carries(tap[i], k)
  }

  /** No event puts such a segment on the tap while out of step. */
  ghost predicate NoneOutOfStep(c: Conn, tso: bool, events: seq<Event>, k: Content)
    requires Inv(c)
    decreases |events|
  {
    events == []
    || var before := events[..|events| - 1];
       && NoneOutOfStep(c, tso, before, k)
       && (OutOfStep(c, tso, before) ==> Free(Run(c, tso, events).io.tap, |Run(c, tso, before).io.tap|, k))
  }

  /** Such segments from position `from` on name the offset that they stand for. */
  ghost predicate TrueLabels(tap: seq<Segment>, from: nat, k: Content) {
    forall i :: from <= i < |tap| && Carries(tap[i], k) ==> tap[i].seqno == Wrap32(ISN + 1 + tap[i].at)
  }

  lemma FaithfulIsTrue(c: Conn)
    requires Inv(c)
    ensures FaithfulTap(c.io.tap, c.io.fromHost) <==> TrueLabels(c.io.tap, 0, Bytes)
  {
    if TrueLabels(c.io.tap, 0, Bytes) {
      forall s | s in c.io.tap && s.payload != [] ensures Faithful(s, c.io.fromHost) {
        var i :| 0 <= i < |c.io.tap| && c.io.tap[i] == s;
        assert Authentic(s, c.io.fromHost, c.t.hostEof);
      }
    }
  }

  lemma TrueLabelsSplit(tap: seq<Segment>, tap': seq<Segment>, k: Content)
    requires tap <= tap'
    ensures TrueLabels(tap', 0, k) <==> TrueLabels(tap, 0, k) && TrueLabels(tap', |tap|, k)
  {
    assert forall i :: 0 <= i < |tap| ==> tap'[i] == tap[i];
  }

  /** What one event adds is labelled right exactly when the flow is in step or nothing is added. */
  lemma ConsistentLabels(c: Conn, c': Conn, k: Content)
    requires Consistent(c, c')
    ensures TrueLabels(c'.io.tap, |c.io.tap|, k) <==> Lag(c) == 0 || Free(c'.io.tap, |c.io.tap|, k)
  {
    if Lag(c) != 0 { LagMislabels(c, c', k); }
  }

  /** The lag is what the last SYN left, and before the handshake there is nothing to label. */
  ghost predicate InStep(c: Conn, out: bool) {
    && (c.t.state.Connecting? ==> !out && c.io.fromHost == [] && c.t.hostFin.NotSent?)
    && (c.t.state.Established? && !c.t.hostFin.Acked? ==> (Lag(c) != 0 <==> out))
  }

  lemma ConnectingStep(c: Conn, tso: bool, e: Event, k: Content)
    requires Inv(c) && c.t.state.Connecting? && InStep(c, false)
    ensures InStep(Step(c, tso, e), false)
    ensures c.io.tap <= Step(c, tso, e).io.tap && Free(Step(c, tso, e).io.tap, |c.io.tap|, k)
  {
    if e.TimerTick? { assert e.now >= RTO ==> !TimerDue(c.t, e.now - RTO); }
  }

  /** One event: the lag follows the SYNs, and new labels are right unless something goes out out of step. */
  lemma StepLabels(c: Conn, tso: bool, e: Event, out: bool, k: Content)
    requires Inv(c) && InStep(c, out)
    ensures var c', out' := Step(c, tso, e), if IsSyn(c, e) then AckedBytes(c) % TWO32 != 0 else out;
            && InStep(c', out') && c.io.tap <= c'.io.tap
            && (TrueLabels(c'.io.tap, |c.io.tap|, k) <==> !out || Free(c'.io.tap, |c.io.tap|, k))
  {
    if c.t.state.Connecting? {
      ConnectingStep(c, tso, e, k);
    } else if IsSyn(c, e) {
      SynLabels(c, tso, e, out, k);
    } else {
      StepConsistent(c, tso, e);
      ConsistentLabels(c, Step(c, tso, e), k);
    }
  }

  lemma SynLabels(c: Conn, tso: bool, e: Event, out: bool, k: Content)
    requires Inv(c) && IsSyn(c, e)
    ensures var c' := Step(c, tso, e);
            && InStep(c', AckedBytes(c) % TWO32 != 0) && c.io.tap <= c'.io.tap
            && (TrueLabels(c'.io.tap, |c.io.tap|, k) <==> !out || Free(c'.io.tap, |c.io.tap|, k))
  {
    SynSync(c);
    assert Step(c, tso, e) == HandleSyn(c);
  }

  lemma {:induction false} RunLabels(c: Conn, tso: bool, events: seq<Event>, k: Content)
    requires Inv(c) && InStep(c, false) && c.io.tap == []
    ensures InStep(Run(c, tso, events), OutOfStep(c, tso, events))
    ensures TrueLabels(Run(c, tso, events).io.tap, 0, k) <==> NoneOutOfStep(c, tso, events, k)
    decreases |events|
  {
    if events != [] {
      var n := |events| - 1;
      RunLabels(c, tso, events[..n], k);
      StepLabels(Run(c, tso, events[..n]), tso, events[n], OutOfStep(c, tso, events[..n]), k);
      TrueLabelsSplit(Run(c, tso, events[..n]).io.tap, Run(c, tso, events).io.tap, k);
    }
  }

  /**
    Download fidelity.  Whatever the guest acks, however its window moves, whatever is lost and sent
    again and however the host's bytes arrive: every data segment on the tap carries exactly the
    host's bytes at the offset its sequence number names, if and only if no data goes out between a
    SYN that found acknowledged data off a whole number of sequence spaces and the next SYN.
   */
  lemma DownloadFidelity(
    seqno: u32, window: u16, mss: Option<u16>, wscale: Option<byte>, start: nat, tso: bool, events: seq<Event>)
    ensures var c := Opened(seqno, window, mss, wscale, start);
            FaithfulTap(Run(c, tso, events).io.tap, Run(c, tso, events).io.fromHost)
            <==> NoneOutOfStep(c, tso, events, Bytes)
  {
    var c := Opened(seqno, window, mss, wscale, start);
    RunLabels(c, tso, events, Bytes);
    FaithfulIsTrue(Run(c, tso, events));
  }

  // ---------------------------------------------------------------------------------------------
  // Guest to host
  // ---------------------------------------------------------------------------------------------

  /**
    The guest sends slices of one stream, numbered from its initial sequence number, less than one
    sequence space away from what was accepted so far; its FIN comes at the end of the stream.  Nothing
    is asked of segments without payload and FIN.
   */
  ghost predicate GuestSends(c: Conn, e: Event, stream: seq<byte>) {
    e.FromGuest? && !e.header.flags.syn && !e.header.flags.rst ==>
      exists p: nat :: StreamSent(e.header, e.payload, stream, c.io.guestIsn, |c.io.toHost|, p)
  }

  ghost predicate StreamSent(h: Header, payload: seq<byte>, stream: seq<byte>, isn: u32, have: nat, p: nat) {
    (payload == [] && !h.flags.fin) || (SliceSent(h, payload, stream, isn, p) && -TWO32 < p - have < TWO32)
  }

  ghost predicate SliceSent(h: Header, payload: seq<byte>, stream: seq<byte>, isn: u32, p: nat) {
    && p + |payload| <= |stream|
    && payload == stream[p..p + |payload|]
    && h.seqno == Wrap32(isn + 1 + p)
    && (h.flags.fin ==> p + |payload| == |stream|)
  }

  /** The host socket has taken a prefix of the guest's stream; after the guest's FIN, all of it. */
  ghost predicate UploadFaithful(c: Conn, stream: seq<byte>) {
    c.io.toHost <= stream && (c.t.guestFin ==> c.io.toHost == stream)
  }

  /** The part of the state that only `Upload` touches. */
  function UploadPart(c: Conn): (seq<byte>, bool, u32) { (c.io.toHost, c.t.guestFin, c.io.guestIsn) }

  lemma DataToGuestUpload(c: Conn, recv: Recv, tso: bool, now: nat)
    requires c.t.sentUnacked <= |c.t.queue| && c.t.guestMss > 0
    ensures UploadPart(MaybeClose(DataToGuest(c, recv, tso, now))) == UploadPart(c)
  {
    DataToGuestFrame(c, recv, tso, now);
  }

  lemma UploadEffect(c: Conn, h: Header, payload: seq<byte>, accept: nat)
    ensures var n, c' := Accepted(c, h, payload, accept), Upload(c, h, payload, accept);
            && c'.io.toHost == c.io.toHost + payload[..n]
            && (c'.t.guestFin <==>
                  || c.t.guestFin
                  || (h.flags.fin && n == |payload| && Wrap32(h.seqno + |payload|) == Wrap32(c.t.seqFromGuest + n)))
  {
  }

  /** What the socket takes of a payload follows what it has. */
  lemma TakesNext(c: Conn, h: Header, payload: seq<byte>, accept: nat, stream: seq<byte>, p: nat)
    requires UploadOk(c) && c.io.toHost <= stream
    requires SliceSent(h, payload, stream, c.io.guestIsn, p) && -TWO32 < p - |c.io.toHost| < TWO32
    ensures c.io.toHost + payload[..Accepted(c, h, payload, accept)] <= stream
  {
    var n := Accepted(c, h, payload, accept);
    if n > 0 {
      WrapInjective(c.io.guestIsn + 1 + p, c.io.guestIsn + 1 + |c.io.toHost|);
      PrefixGrows(c.io.toHost, payload, n, stream);
    } else {
      assert c.io.toHost + payload[..0] == c.io.toHost;
    }
  }

  lemma PrefixGrows(have: seq<byte>, payload: seq<byte>, n: nat, stream: seq<byte>)
    requires have <= stream && n <= |payload| && |have| + |payload| <= |stream|
    requires payload == stream[|have|..|have| + |payload|]
    ensures have + payload[..n] <= stream
  {
    forall i | 0 <= i < n ensures payload[i] == stream[|have| + i] {
      assert stream[|have|..|have| + |payload|][i] == stream[|have| + i];
    }
  }

  /** A FIN counts only behind the last byte of the stream. */
  lemma FinIsLast(isn: u32, p: nat, len: nat, have: nat, n: nat)
    requires n <= len && -TWO32 < p - have < TWO32 && (n > 0 ==> p == have)
    requires Wrap32(Wrap32(isn + 1 + p) + len) == Wrap32(Wrap32(isn + 1 + have) + n) && n == len
    ensures p + len == have + n
  {
    WrapAdd(isn + 1 + p, len);
    WrapAdd(isn + 1 + have, n);
    WrapInjective(isn + 1 + p + len, isn + 1 + have + n);
  }

  lemma UploadIsFaithful(c: Conn, h: Header, payload: seq<byte>, accept: nat, stream: seq<byte>, p: nat)
    requires UploadOk(c) && UploadFaithful(c, stream)
    requires SliceSent(h, payload, stream, c.io.guestIsn, p) && -TWO32 < p - |c.io.toHost| < TWO32
    ensures UploadFaithful(Upload(c, h, payload, accept), stream)
  {
    var n, c' := Accepted(c, h, payload, accept), Upload(c, h, payload, accept);
    UploadEffect(c, h, payload, accept);
    TakesNext(c, h, payload, accept, stream, p);
    if c'.t.guestFin && !c.t.guestFin {
      if n > 0 { WrapInjective(c.io.guestIsn + 1 + p, c.io.guestIsn + 1 + |c.io.toHost|); }
      FinIsLast(c.io.guestIsn, p, |payload|, |c.io.toHost|, n);
    }
  }

  lemma DeliverUpload(
    c: Conn, h: Header, payload: seq<byte>, accept: nat, recv: Recv, tso: bool, now: nat, stream: seq<byte>, p: nat)
    requires c.t.sentUnacked <= |c.t.queue| && c.t.guestMss > 0 && UploadOk(c) && UploadFaithful(c, stream)
    requires StreamSent(h, payload, stream, c.io.guestIsn, |c.io.toHost|, p)
    ensures UploadFaithful(MaybeClose(DataToGuest(Upload(c, h, payload, accept), recv, tso, now)), stream)
  {
    if payload != [] || h.flags.fin {
      UploadIsFaithful(c, h, payload, accept, stream, p);
    } else {
      UploadEffect(c, h, payload, accept);
      assert c.io.toHost + [] == c.io.toHost;
    }
    DataToGuestUpload(Upload(c, h, payload, accept), recv, tso, now);
  }

  lemma GuestUpload(
    c: Conn, h: Header, payload: seq<byte>, accept: nat, recv: Recv, tso: bool, now: nat, stream: seq<byte>, p: nat)
    requires Inv(c) && UploadFaithful(c, stream)
    requires StreamSent(h, payload, stream, c.io.guestIsn, |c.io.toHost|, p)
    ensures UploadFaithful(HandleGuest(c, h, payload, accept, recv, tso, now), stream)
  {
    if !h.flags.rst && c.t.state.Established? && !h.flags.syn {
      if h.flags.ack {
        var n := AckFrame(c.t, h, payload == [], now);
        DeliverUpload(c.(t := AckFromGuest(c.t, h, payload == [], now)), h, payload, accept, recv, tso, now, stream, p);
      } else {
        DeliverUpload(c, h, payload, accept, recv, tso, now, stream, p);
      }
    }
  }

  lemma ReadyUpload(c: Conn, pollErr: bool, pollHup: bool, sockErr: bool, recv: Recv, tso: bool, now: nat)
    requires c.t.sentUnacked <= |c.t.queue| && c.t.guestMss > 0
    ensures UploadPart(HandleReady(c, pollErr, pollHup, sockErr, recv, tso, now)) == UploadPart(c)
  {
    DataToGuestUpload(c.(t := c.t.(pollArmed := false)), recv, tso, now);
  }

  lemma StaleUpload(c: Conn, recv: Recv, tso: bool, now: nat)
    requires c.t.sentUnacked <= |c.t.queue| && c.t.guestMss > 0
    ensures UploadPart(HandleStale(c, recv, tso, now)) == UploadPart(c)
  {
    DataToGuestFrame(Rewind(c, now), recv, tso, now);
  }

  lemma TimerUpload(c: Conn, recv: Recv, tso: bool, now: nat)
    requires c.t.sentUnacked <= |c.t.queue| && c.t.guestMss > 0
    ensures UploadPart(HandleTimer(c, recv, tso, now)) == UploadPart(c)
  {
    StaleUpload(FlushAck(c), recv, tso, now);
  }

  lemma StepUpload(c: Conn, tso: bool, e: Event, stream: seq<byte>)
    requires Inv(c) && UploadFaithful(c, stream) && GuestSends(c, e, stream)
    ensures UploadFaithful(Step(c, tso, e), stream)
  {
    match e
    case FromGuest(h, payload, accept, recv, now) =>
      if !h.flags.syn && !h.flags.rst {
        var p: nat :| StreamSent(h, payload, stream, c.io.guestIsn, |c.io.toHost|, p);
        GuestUpload(c, h, payload, accept, recv, tso, now, stream, p);
      }
    case SocketReady(pollErr, pollHup, sockErr, recv, now) =>
      ReadyUpload(c, pollErr, pollHup, sockErr, recv, tso, now);
    case PollFailed =>
    case TimerTick(recv, now) => TimerUpload(c, recv, tso, now);
  }

  ghost predicate GuestSendsRun(c: Conn, tso: bool, events: seq<Event>, stream: seq<byte>)
    requires Inv(c)
  {
    forall i :: 0 <= i < |events| ==> GuestSends(Run(c, tso, events[..i]), events[i], stream)
  }

  lemma GuestSendsPrefix(c: Conn, tso: bool, events: seq<Event>, stream: seq<byte>, n: nat)
    requires Inv(c) && GuestSendsRun(c, tso, events, stream) && n <= |events|
    ensures GuestSendsRun(c, tso, events[..n], stream)
  {
    forall i | 0 <= i < n ensures GuestSends(Run(c, tso, events[..n][..i]), events[..n][i], stream) {
      assert events[..n][..i] == events[..i];
    }
  }

  /**
    Upload fidelity.  Under partial writes, out-of-order frames, retransmitted data and FINs, the host
    socket has taken exactly a prefix of the guest's stream, and the whole stream once the write side
    is shut down; `seqFromGuest` is the sequence number right after it.
   */
  lemma {:induction false} UploadFidelity(c: Conn, tso: bool, events: seq<Event>, stream: seq<byte>)
    requires Inv(c) && UploadFaithful(c, stream) && GuestSendsRun(c, tso, events, stream)
    ensures UploadFaithful(Run(c, tso, events), stream)
    ensures UploadOk(Run(c, tso, events))
    decreases |events|
  {
    if events != [] {
      var n := |events| - 1;
      GuestSendsPrefix(c, tso, events, stream, n);
      UploadFidelity(c, tso, events[..n], stream);
      StepUpload(Run(c, tso, events[..n]), tso, events[n], stream);
    }
  }

  // ---------------------------------------------------------------------------------------------
  // Acknowledgements
  // ---------------------------------------------------------------------------------------------

  /** The ack number `ackno` names the position `k` past `una`. */
  predicate Names(ackno: u32, una: u32, k: int) { ackno == Wrap32(una + k) }

  /** The only position within a sequence space that an ack number names. */
  lemma NamesOnly(ackno: u32, una: u32, k: int)
    requires 0 <= k < TWO32
    ensures Names(ackno, una, k) <==> k == Wrap32(ackno - una)
  {
  }

  lemma AdvanceEffect(t: Tcp, advance: nat, now: nat)
    requires t.sentUnacked <= |t.queue| && 0 < advance <= MaxAdvance(t)
    ensures var r := Advance(t, advance, now);
            && |r.queue| == |t.queue| - Min(advance, t.sentUnacked)
            && (r.hostFin.Acked? <==> t.hostFin.Acked? || advance > t.sentUnacked)
            && (t.sentUnacked == 0 ==> r.seqUna == Wrap32(t.seqUna + 1))
  {
  }

  /** An ack is an advance, or else leaves the positions and the FIN alone. */
  lemma AckCases(t: Tcp, h: Header, payloadEmpty: bool, now: nat)
    requires t.sentUnacked <= |t.queue|
    ensures var r, advance := AckFromGuest(t, h, payloadEmpty, now), Wrap32(h.ackno - t.seqUna);
            if 0 < advance <= MaxAdvance(t)
            then r == Advance(t.(guestWindow := ScaledWindow(t, h.window)), advance, now)
            else r.queue == t.queue && r.hostFin == t.hostFin && r.seqUna == t.seqUna
  {
  }

  /** What an ack changes, in terms of how far it is ahead of `seqUna`. */
  lemma AckEffect(t: Tcp, h: Header, payloadEmpty: bool, now: nat)
    requires Shape(t)
    ensures var r, advance := AckFromGuest(t, h, payloadEmpty, now), Wrap32(h.ackno - t.seqUna);
            && |r.queue| == |t.queue| - (if 0 < advance <= MaxAdvance(t) then Min(advance, t.sentUnacked) else 0)
            && (r.hostFin.Acked? <==> t.hostFin.Acked? || (t.hostFin.Sent? && advance == 1))
  {
    var advance := Wrap32(h.ackno - t.seqUna);
    AckCases(t, h, payloadEmpty, now);
    if 0 < advance <= MaxAdvance(t) {
      AdvanceEffect(t.(guestWindow := ScaledWindow(t, h.window)), advance, now);
    }
  }

  /**
    Acks across the 2^32 wrap: an ack releases `k` bytes exactly when it names the position `k` bytes
    past the oldest unacknowledged one and that many are in flight; any other ack, stale or ahead of
    what was sent, releases nothing.  The FIN counts as acked exactly when the ack names the position
    past it.
   */
  lemma AckReleases(c: Conn, h: Header, payloadEmpty: bool, now: nat)
    requires Inv(c)
    ensures var c' := c.(t := AckFromGuest(c.t, h, payloadEmpty, now));
            && (forall k :: 0 < k <= c.t.sentUnacked && Names(h.ackno, c.t.seqUna, k) ==>
                  AckedBytes(c') == AckedBytes(c) + k)
            && ((forall k :: 0 < k <= c.t.sentUnacked ==> !Names(h.ackno, c.t.seqUna, k)) ==>
                  AckedBytes(c') == AckedBytes(c))
            && (c'.t.hostFin.Acked? <==>
                  c.t.hostFin.Acked? || (c.t.hostFin.Sent? && Names(h.ackno, c.t.seqUna, 1)))
  {
    AckEffect(c.t, h, payloadEmpty, now);
    var advance := Wrap32(h.ackno - c.t.seqUna);
    NamesOnly(h.ackno, c.t.seqUna, advance);
    NamesOnly(h.ackno, c.t.seqUna, 1);
    forall k | 0 < k <= c.t.sentUnacked && Names(h.ackno, c.t.seqUna, k) ensures k == advance {
      NamesOnly(h.ackno, c.t.seqUna, k);
    }
  }

  /**
    Behind an acked FIN nothing is left to ack, yet an ack that names the position one further still
    counts: the send position stays put exactly when the guest does not ack that unsent byte.
   */
  lemma FinPositionStays(c: Conn, h: Header, payloadEmpty: bool, now: nat)
    requires Inv(c) && c.t.hostFin.Acked?
    ensures var c' := c.(t := AckFromGuest(c.t, h, payloadEmpty, now));
            && (c'.t.seqUna == c.t.seqUna <==> !Names(h.ackno, c.t.seqUna, 1))
            && c'.t.hostFin.Acked? && AckedBytes(c') == AckedBytes(c)
  {
    FinAckAdvances(c.t, h, payloadEmpty, now);
  }

  lemma FinAckAdvances(t: Tcp, h: Header, payloadEmpty: bool, now: nat)
    requires Shape(t) && t.hostFin.Acked?
    ensures var r := AckFromGuest(t, h, payloadEmpty, now);
            && (r.seqUna == t.seqUna <==> !Names(h.ackno, t.seqUna, 1)) && r.hostFin.Acked? && r.queue == t.queue
  {
    AckCases(t, h, payloadEmpty, now);
    OneFurther(h.ackno, t.seqUna);
    if Wrap32(h.ackno - t.seqUna) == 1 {
      AdvanceEffect(t.(guestWindow := ScaledWindow(t, h.window)), 1, now);
    }
  }

  lemma OneFurther(ackno: u32, una: u32)
    ensures Names(ackno, una, 1) <==> Wrap32(ackno - una) == 1
    ensures Wrap32(una + 1) != una
  {
    NamesOnly(ackno, una, 1);
  }

  // ---------------------------------------------------------------------------------------------
  // Closing
  // ---------------------------------------------------------------------------------------------

  ghost predicate ClosedOk(c: Conn) {
    c.gone == Some(ByClose) ==> c.t.hostFin.Acked? && c.t.guestFin
  }

  lemma DataToGuestGone(c: Conn, recv: Recv, tso: bool, now: nat)
    requires c.t.sentUnacked <= |c.t.queue| && c.t.guestMss > 0 && c.gone.None?
    ensures DataToGuest(c, recv, tso, now).gone != Some(ByClose)
  {
  }

  lemma RefillClosed(c: Conn, recv: Recv, tso: bool, now: nat)
    requires c.t.sentUnacked <= |c.t.queue| && c.t.guestMss > 0 && c.gone.None?
    ensures ClosedOk(MaybeClose(DataToGuest(c, recv, tso, now)))
  {
    DataToGuestGone(c, recv, tso, now);
  }

  lemma UploadGone(c: Conn, h: Header, payload: seq<byte>, accept: nat)
    ensures Upload(c, h, payload, accept).gone == c.gone
  {
  }

  lemma StepClosed(c: Conn, tso: bool, e: Event)
    requires Inv(c) && ClosedOk(c)
    ensures ClosedOk(Step(c, tso, e))
  {
    if c.gone.None? {
      match e
      case FromGuest(h, payload, accept, recv, now) =>
        var c1 := if h.flags.ack then c.(t := AckFromGuest(c.t, h, payload == [], now)) else c;
        UploadGone(c1, h, payload, accept);
        RefillClosed(Upload(c1, h, payload, accept), recv, tso, now);
      case SocketReady(_, _, _, recv, now) => RefillClosed(c.(t := c.t.(pollArmed := false)), recv, tso, now);
      case PollFailed =>
      case TimerTick(recv, now) => DataToGuestGone(Rewind(FlushAck(c), now), recv, tso, now);
    }
  }

  lemma {:induction false} RunClosed(c: Conn, tso: bool, events: seq<Event>)
    requires Inv(c) && ClosedOk(c)
    ensures ClosedOk(Run(c, tso, events))
    decreases |events|
  {
    if events != [] {
      RunClosed(c, tso, events[..|events| - 1]);
      StepClosed(Run(c, tso, events[..|events| - 1]), tso, events[|events| - 1]);
    }
  }

  /** Both streams are complete: all host bytes acked with the FIN right behind them, all guest bytes written. */
  ghost predicate Complete(c: Conn, stream: seq<byte>) {
    && c.t.hostEof && c.t.hostFin.Acked? && AckedBytes(c) == |c.io.fromHost|
    && (exists s :: s in c.io.tap && s.flags.fin)
    && (forall s :: s in c.io.tap && s.flags.fin ==> s.at == |c.io.fromHost|)
    && c.io.toHost == stream && c.io.shutAt == Some(|stream|)
  }

  /** The sequence number of every FIN names the end of the host's stream. */
  ghost predicate FinsNameEnd(c: Conn) {
    forall s :: s in c.io.tap && s.flags.fin ==> s.seqno == Wrap32(ISN + 1 + |c.io.fromHost|)
  }

  lemma CompleteWhenClosed(c: Conn, stream: seq<byte>)
    requires Inv(c) && UploadFaithful(c, stream) && ClosedOk(c) && c.gone == Some(ByClose)
    ensures Complete(c, stream)
  {
    forall s | s in c.io.tap && s.flags.fin ensures s.at == |c.io.fromHost| {
      assert Authentic(s, c.io.fromHost, c.t.hostEof);
    }
  }

  lemma FinsAreTrue(c: Conn)
    requires Inv(c)
    ensures FinsNameEnd(c) <==> TrueLabels(c.io.tap, 0, Fin)
  {
    forall s | s in c.io.tap && s.flags.fin ensures s.at == |c.io.fromHost| {
      assert Authentic(s, c.io.fromHost, c.t.hostEof);
    }
    if TrueLabels(c.io.tap, 0, Fin) {
      forall s | s in c.io.tap && s.flags.fin ensures s.seqno == Wrap32(ISN + 1 + |c.io.fromHost|) {
        var i :| 0 <= i < |c.io.tap| && c.io.tap[i] == s;
      }
    }
  }

  /**
    A graceful close is full delivery both ways.  Whenever `tcp_maybe_close` has removed a flow, the host had
    ended its stream, as some event read EOF; the guest has acked every byte before that and the FIN right
    behind them, and the host socket took every guest byte before its write side was shut down.
   */
  lemma GracefulClose(
    seqno: u32, window: u16, mss: Option<u16>, wscale: Option<byte>, start: nat, tso: bool, events: seq<Event>,
    stream: seq<byte>)
    requires GuestSendsRun(Opened(seqno, window, mss, wscale, start), tso, events, stream)
    ensures var c := Opened(seqno, window, mss, wscale, start);
            Run(c, tso, events).gone == Some(ByClose) ==>
              Complete(Run(c, tso, events), stream) && exists i: nat :: EndedAt(c, tso, events, i)
  {
    var c := Opened(seqno, window, mss, wscale, start);
    UploadFidelity(c, tso, events, stream);
    RunClosed(c, tso, events);
    if Run(c, tso, events).gone == Some(ByClose) {
      CompleteWhenClosed(Run(c, tso, events), stream);
      var i := EofWasRead(c, tso, events);
    }
  }

  /** The FIN's sequence number says so too if and only if no FIN goes out while out of step. */
  lemma FinFidelity(
    seqno: u32, window: u16, mss: Option<u16>, wscale: Option<byte>, start: nat, tso: bool, events: seq<Event>)
    ensures var c := Opened(seqno, window, mss, wscale, start);
            FinsNameEnd(Run(c, tso, events)) <==> NoneOutOfStep(c, tso, events, Fin)
  {
    var c := Opened(seqno, window, mss, wscale, start);
    RunLabels(c, tso, events, Fin);
    FinsAreTrue(Run(c, tso, events));
  }
}
