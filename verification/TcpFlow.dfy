/**
  The flow as the event loop keeps it: 32-bit fields and a ring buffer, updated in place.  Every method
  leaves exactly the state that `TcpModel` computes, so all that is proved there holds of this class.
 */
module TcpFlow {
  import opened Words
  import opened Buffers
  import opened TcpModel
  import opened TcpInvariant
  import opened Ring

  class Connection {
    const buf: RingBuffer
    var state: TcpState
    var seqFromGuest: u32
    var seqUna: u32
    var sentUnacked: u32
    var lastProgress: nat
    var hostEof: bool
    var guestWindow: u32
    var dupAcks: byte
    var guestWscale: Option<nat>
    var guestMss: u16
    var hostFin: FinState
    var guestFin: bool
    var ackDeferred: bool
    var pollArmed: bool
    var io: Io
    var gone: Option<Removal>

    /** The record as a value. */
    ghost function Record(): Tcp
      reads this, buf
    {
      Tcp(state, seqFromGuest, seqUna, sentUnacked, buf.queue, lastProgress, hostEof,
          guestWindow, dupAcks, guestWscale, guestMss, hostFin, guestFin, ackDeferred, pollArmed)
    }

    /** The flow as a value. */
    ghost function View(): Conn
      reads this, buf
    {
      Conn(Record(), io, gone)
    }

    ghost predicate Layout()
      reads this`sentUnacked, buf, buf.mem
    {
      buf.Valid() && sentUnacked <= buf.len
    }

    ghost predicate Valid()
      reads this, buf, buf.mem
    {
      Layout() && Inv(View())
    }

    /** A new flow for a guest SYN, its connect poll submitted; its ring is the part of `mem` from `base` on. */
    constructor (
      mem: array<byte>, base: nat, seqno: u32, window: u16, mss: Option<u16>, wscale: Option<byte>, now: nat)
      requires base + FRAME <= mem.Length
      ensures Valid() && fresh(buf) && buf.mem == mem && buf.base == base
      ensures View() == Open(seqno, window, mss, wscale, now)
    {
      buf := new RingBuffer(mem, base);
      state, seqFromGuest, seqUna, sentUnacked := Connecting, Wrap32(seqno + 1), ISN, 0;
      guestWindow := window;
      guestWscale := if wscale.Some? then Some(Min(wscale.value, 14)) else None;
      guestMss := Max(if mss.Some? then mss.value else MIN_MSS, MIN_MSS);
      dupAcks, lastProgress, hostEof, hostFin := 0, now, false, NotSent;
      guestFin, ackDeferred, pollArmed := false, false, true;
      io, gone := Io(seqno, [], [], None, [], 0, 1), None;
      new;
      ghost var c := Opened(seqno, window, mss, wscale, now);
    }

    method AckDataBy(n: nat, now: nat)
      requires Layout() && n <= sentUnacked
      modifies this`dupAcks, this`lastProgress, this`sentUnacked, this`seqUna, buf
      ensures Layout() && Record() == AckData(old(Record()), n, now)
    {
      dupAcks := 0;
      lastProgress := now;
      sentUnacked := sentUnacked - n;
      seqUna := Wrap32(seqUna + n);
      buf.Release(n);
    }

    method AdvanceBy(advance: nat, now: nat)
      requires Layout() && 0 < advance <= MaxAdvance(Record())
      modifies this`dupAcks, this`lastProgress, this`sentUnacked, this`seqUna, this`hostFin, buf
      ensures Layout()
      ensures Record() == Advance(old(Record()), advance, now)
    {
      ghost var t := Record();
      var dataAcked := Min(advance, sentUnacked);
      AdvanceParts(t, advance, now, AckData(t, dataAcked, now));
      AckDataBy(dataAcked, now);
      if advance > dataAcked {
        AckFinBy();
      }
    }

    method AckFinBy()
      modifies this`seqUna, this`hostFin
      ensures Record() == AckFin(old(Record()))
    {
      seqUna := Wrap32(seqUna + 1);
      hostFin := Acked;
    }

    method DuplicateAck()
      requires Layout() && dupAcks < 3
      modifies this`dupAcks, this`sentUnacked
      ensures Layout() && Record() == Duplicate(old(Record()))
    {
      dupAcks := Min(dupAcks + 1, 255);
      if dupAcks >= 3 {
        dupAcks := 0;
        sentUnacked := 0;
      }
    }

    method AckFromGuest(h: Header, payloadEmpty: bool, now: nat)
      requires Layout() && Shape(Record())
      modifies this`dupAcks, this`lastProgress, this`sentUnacked, this`seqUna, this`hostFin, this`guestWindow, buf
      ensures Layout() && Record() == TcpModel.AckFromGuest(old(Record()), h, payloadEmpty, now)
    {
      WindowBound(Record(), h.window);
      var oldWindow := guestWindow;
      guestWindow := Scaled(h.window, guestWscale);
      var advance := Wrap32(h.ackno - seqUna);
      var maxAdvance := sentUnacked + if hostFin.NotSent? then 0 else 1;
      if 0 < advance <= maxAdvance {
        AdvanceBy(advance, now);
      } else if advance == 0 && payloadEmpty && !h.flags.fin && sentUnacked > 0 && guestWindow == oldWindow {
        DuplicateAck();
      }
    }

    /** Top up the ring from the host socket; `None` stands for a failed read, which ends the flow. */
    method FillBuffer(recv: Recv) returns (drained: Option<bool>)
      requires Layout() && Shape(Record()) && gone.None?
      modifies this`hostEof, this`io, this`gone, buf, buf.mem
      ensures OnlyWindow(old(buf.mem[..]), buf.mem[..], buf.base)
      ensures Layout() && View() == Fill(old(View()), recv).0
      ensures drained == if gone.Some? then None else Some(Fill(old(View()), recv).1)
    {
      if hostEof || buf.len >= FRAME {
        return Some(false);
      }
      var free := FRAME - buf.len;
      match Read(recv, free)
      case Again => drained := Some(true);
      case Failed =>
        Reset();
        drained := None;
      case Eof =>
        hostEof := true;
        drained := Some(false);
      case Data(bytes) =>
        buf.Store(bytes);
        io := io.(fromHost := io.fromHost + bytes);
        drained := Some(|bytes| < free);
    }

    /** Hand a segment to the tap; `seg.at` is for the history only. */
    method WriteTap(seg: Segment)
      modifies this`io
      ensures io == Logged(old(io), [seg])
    {
      io := Logged(io, [seg]);
    }

    /** A segment without payload at the current send position. */
    method SendControl(flags: Flags)
      requires Layout()
      modifies this`io
      ensures View() == TcpModel.SendControl(old(View()), flags)
    {
      WriteTap(Segment(Wrap32(seqUna + sentUnacked), seqFromGuest, flags, [], [], None,
                       |io.fromHost| - buf.len + sentUnacked));
    }

    method Reset()
      requires Layout()
      modifies this`io, this`gone
      ensures View() == TcpModel.Reset(old(View()))
    {
      SendControl(RST_ACK);
      gone := Some(ByError);
    }

    method SendSynAck()
      requires Layout()
      modifies this`io, this`seqUna
      ensures View() == TcpModel.SendSynAck(old(View()))
    {
      WriteTap(Segment(ISN, seqFromGuest, SYN_ACK, SynAckOptions(guestWscale.Some?), [], None, -1));
      seqUna := Wrap32(ISN + 1);
    }

    method ArmPoll()
      requires Layout()
      modifies this`io, this`pollArmed
      ensures View() == Arm(old(View()))
    {
      pollArmed := true;
      io := io.(polls := io.polls + 1);
    }

    method MaybeClose()
      requires Layout()
      modifies this`gone
      ensures View() == TcpModel.MaybeClose(old(View()))
    {
      if gone.None? && hostFin.Acked? && guestFin {
        gone := Some(ByClose);
      }
    }

    /** Send `sendLen` unsent bytes: super-frames with TSO, MSS-sized frames otherwise. */
    method SendFrames(sendLen: nat, tso: bool)
      requires Layout() && 0 < sendLen <= buf.len - sentUnacked && guestMss > 0
      modifies this`io
      ensures View() == Emit(old(View()), FramesOf(old(View()), sendLen, tso))
    {
      var useGso := tso && sendLen > guestMss;
      var at := |io.fromHost| - buf.len + sentUnacked;
      var how := Framing(Chunk(sendLen, guestMss, useGso), seqUna + sentUnacked - at, seqFromGuest,
                         if useGso then Some(guestMss) else None);
      assert how == FramingOf(View(), sendLen, tso) && at == SendOffset(View());
      var segs := Frames(buf, sentUnacked, sendLen, Wrap32(seqUna + sentUnacked), how, at);
      io := Logged(io, segs);
    }

    /** Send what fits into `budget`. */
    method SendBurst(budget: nat, tso: bool, now: nat) returns (sendLen: nat)
      requires Layout() && Shape(Record()) && sentUnacked < buf.len && budget > 0
      modifies this`io, this`sentUnacked, this`lastProgress
      ensures Layout() && View() == TcpModel.SendBurst(old(View()), budget, tso, now)
      ensures sendLen == SendLen(old(Record()), budget)
    {
      ghost var c := View();
      sendLen := Min(buf.len - sentUnacked, budget);
      BurstParts(c, budget, sendLen, tso, now);
      SendFrames(sendLen, tso);
      CountSent(sendLen, now);
    }

    method CountSent(sendLen: nat, now: nat)
      requires Layout() && sentUnacked + sendLen <= buf.len
      modifies this`sentUnacked, this`lastProgress
      ensures Layout() && View() == Counted(old(View()), sendLen, now)
    {
      sentUnacked := sentUnacked + sendLen;
      lastProgress := now;
    }

    /** Once everything is sent and the socket is drained, wait for the socket. */
    method SendNew(budget: nat, drained: bool, tso: bool, now: nat)
      requires Layout() && Shape(Record()) && sentUnacked < buf.len && budget > 0
      modifies this`io, this`sentUnacked, this`lastProgress, this`pollArmed
      ensures Layout() && View() == TcpModel.SendNew(old(View()), budget, drained, tso, now)
    {
      var unsent := buf.len - sentUnacked;
      var sendLen := SendBurst(budget, tso, now);
      if drained && sendLen == unsent && !pollArmed {
        ArmPoll();
      }
    }

    /** Nothing is left to send: forward the host's FIN, or wait for the socket. */
    method SendNothing(drained: bool, now: nat)
      requires Layout()
      modifies this`io, this`hostFin, this`lastProgress, this`pollArmed
      ensures View() == TcpModel.SendNothing(old(View()), drained, now)
    {
      if hostEof && sentUnacked == 0 {
        SendControl(FIN_ACK);
        hostFin := Sent;
        lastProgress := now;
      } else if drained && !pollArmed {
        ArmPoll();
      }
    }

    method Forward(budget: nat, drained: bool, tso: bool, now: nat)
      requires Layout() && Shape(Record()) && budget > 0
      modifies this`io, this`hostFin, this`sentUnacked, this`lastProgress, this`pollArmed
      ensures Layout() && View() == TcpModel.Forward(old(View()), budget, drained, tso, now)
    {
      if buf.len == sentUnacked {
        SendNothing(drained, now);
      } else {
        SendNew(budget, drained, tso, now);
      }
    }

    method DataToGuest(recv: Recv, tso: bool, now: nat)
      requires Valid() && gone.None?
      modifies this, buf, buf.mem
      ensures OnlyWindow(old(buf.mem[..]), buf.mem[..], buf.base)
      ensures Layout() && View() == TcpModel.DataToGuest(old(View()), recv, tso, now)
    {
      var idle := pollArmed && buf.len == sentUnacked && !hostEof;
      if state.Connecting? || !hostFin.NotSent? || idle || guestWindow <= sentUnacked {
        assert !MaySend(Record());
        return;
      }
      assert MaySend(Record());
      ReadAndForward(recv, guestWindow - sentUnacked, tso, now);
    }

    /** Top up the ring, then send what fits into `budget`. */
    method ReadAndForward(recv: Recv, budget: nat, tso: bool, now: nat)
      requires Valid() && gone.None? && state.Established? && hostFin.NotSent? && budget > 0
      modifies this, buf, buf.mem
      ensures OnlyWindow(old(buf.mem[..]), buf.mem[..], buf.base)
      ensures Layout()
      ensures View() == AfterFill(Fill(old(View()), recv).0, budget, Fill(old(View()), recv).1, tso, now)
    {
      FillKeeps(View(), recv);
      FillFrame(View(), recv);
      var drained := FillBuffer(recv);
      if drained.Some? {
        Forward(budget, drained.value, tso, now);
      }
    }

    /** Bytes the host socket takes of an in-order payload; the rest waits for a retransmission. */
    method TakePayload(h: Header, payload: seq<byte>, accept: nat) returns (accepted: nat)
      modifies this`seqFromGuest, this`io
      ensures accepted == Accepted(old(View()), h, payload, accept)
      ensures View() == TcpModel.TakePayload(old(View()), payload, accepted)
    {
      accepted := 0;
      if payload != [] {
        if h.seqno == seqFromGuest && io.shutAt.None? {
          accepted := Min(accept, |payload|);
        }
        seqFromGuest := Wrap32(seqFromGuest + accepted);
        io := io.(toHost := io.toHost + payload[..accepted], quiet := io.quiet + 1);
      } else {
        assert payload[..accepted] == [] && io.toHost + [] == io.toHost;
      }
    }

    /** Take an in-order payload; its ack may wait for the next frame, or is owed at once. */
    method TakeData(h: Header, payload: seq<byte>, accept: nat) returns (accepted: nat, owed: bool)
      requires Layout()
      modifies this`seqFromGuest, this`ackDeferred, this`io
      ensures accepted == Accepted(old(View()), h, payload, accept)
      ensures owed == (payload != [] && !MayDefer(old(View()), h, payload, accepted))
      ensures View() == Taken(old(View()), payload, accepted, payload != [] && !owed)
    {
      accepted := TakePayload(h, payload, accept);
      owed := payload != [] && !(accepted == |payload| && !h.flags.psh && !ackDeferred);
      if payload != [] && !owed {
        ackDeferred := true;
      }
    }

    method AckNow()
      requires Layout()
      modifies this`ackDeferred, this`io
      ensures View() == TcpModel.SendControl(old(View()).(t := old(Record()).(ackDeferred := false)), ACK)
    {
      ackDeferred := false;
      SendControl(ACK);
    }

    /** The guest's FIN, once everything before it was accepted. */
    method TakeFin(h: Header, payload: seq<byte>)
      modifies this`seqFromGuest, this`guestFin, this`io
      ensures View() == TcpModel.TakeFin(old(View()), h, payload)
    {
      var finSeq := Wrap32(h.seqno + |payload|);
      if !guestFin && finSeq == seqFromGuest {
        guestFin := true;
        seqFromGuest := Wrap32(seqFromGuest + 1);
        io := io.(shutAt := Some(|io.toHost|));
      }
    }

    method Upload(h: Header, payload: seq<byte>, accept: nat)
      requires Layout()
      modifies this`seqFromGuest, this`guestFin, this`ackDeferred, this`io
      ensures View() == TcpModel.Upload(old(View()), h, payload, accept)
    {
      var accepted, ackGuest := TakeData(h, payload, accept);
      if h.flags.fin && accepted == |payload| {
        TakeFin(h, payload);
        ackGuest := true;
      }
      if ackGuest {
        AckNow();
      }
    }

    /** After any change: send host bytes, then drop the flow if both directions are done. */
    method Refill(recv: Recv, tso: bool, now: nat)
      requires Valid() && gone.None?
      modifies this, buf, buf.mem
      ensures OnlyWindow(old(buf.mem[..]), buf.mem[..], buf.base)
      ensures Layout() && View() == TcpModel.MaybeClose(TcpModel.DataToGuest(old(View()), recv, tso, now))
    {
      DataToGuest(recv, tso, now);
      MaybeClose();
    }

    /** What a guest segment says about our data and its window. */
    method TakeAck(h: Header, payload: seq<byte>, now: nat)
      requires Valid() && state.Established? && h.flags.ack
      modifies this, buf
      ensures Valid() && View() == old(View()).(t := TcpModel.AckFromGuest(old(Record()), h, payload == [], now))
    {
      AckKeeps(View(), h, payload == [], now);
      AckFromGuest(h, payload == [], now);
    }

    method Deliver(h: Header, payload: seq<byte>, accept: nat, recv: Recv, tso: bool, now: nat)
      requires Valid() && state.Established? && gone.None?
      modifies this, buf, buf.mem
      ensures OnlyWindow(old(buf.mem[..]), buf.mem[..], buf.base)
      ensures Layout()
      ensures View() == TcpModel.MaybeClose(TcpModel.DataToGuest(TcpModel.Upload(old(View()), h, payload, accept),
                                                                 recv, tso, now))
    {
      UploadKeeps(View(), h, payload, accept);
      Upload(h, payload, accept);
      Refill(recv, tso, now);
    }

    /** Our SYN-ACK was lost: whatever was sent since was dropped by the guest. */
    method AnswerSyn()
      requires Layout()
      modifies this`sentUnacked, this`dupAcks, this`io, this`seqUna
      ensures Layout() && View() == HandleSyn(old(View()))
    {
      sentUnacked := 0;
      dupAcks := 0;
      SendSynAck();
    }

    /** A segment of an established flow. */
    method TakeSegment(h: Header, payload: seq<byte>, accept: nat, recv: Recv, tso: bool, now: nat)
      requires Valid() && state.Established? && gone.None? && !h.flags.rst && !h.flags.syn
      modifies this, buf, buf.mem
      ensures OnlyWindow(old(buf.mem[..]), buf.mem[..], buf.base)
      ensures Layout() && View() == HandleGuest(old(View()), h, payload, accept, recv, tso, now)
    {
      if h.flags.ack {
        TakeAck(h, payload, now);
        Deliver(h, payload, accept, recv, tso, now);
      } else {
        Deliver(h, payload, accept, recv, tso, now);
      }
    }

    /** Dispatch on the flags and the state. */
    method FromGuest(h: Header, payload: seq<byte>, accept: nat, recv: Recv, tso: bool, now: nat)
      requires Valid() && gone.None?
      modifies this, buf, buf.mem
      ensures OnlyWindow(old(buf.mem[..]), buf.mem[..], buf.base)
      ensures Valid() && View() == HandleGuest(old(View()), h, payload, accept, recv, tso, now)
    {
      GuestKeeps(View(), h, payload, accept, recv, tso, now);
      if h.flags.rst {
        gone := Some(ByGuest);
      } else if state.Connecting? {
        // Nothing is answered before the host has accepted the connection.
      } else if h.flags.syn {
        AnswerSyn();
      } else {
        TakeSegment(h, payload, accept, recv, tso, now);
      }
    }

    /** The connect poll completed. */
    method Connected(failed: bool)
      requires Layout() && state.Connecting?
      modifies this`state, this`io, this`seqUna, this`pollArmed, this`gone
      ensures Layout()
      ensures View() == if failed then TcpModel.Reset(old(View()))
                        else Arm(TcpModel.SendSynAck(old(View()).(t := old(Record()).(state := Established))))
    {
      if failed {
        Reset();
      } else {
        state := Established;
        SendSynAck();
        ArmPoll();
      }
    }

    /** A data poll completed. */
    method Readable(failed: bool, recv: Recv, tso: bool, now: nat)
      requires Valid() && gone.None? && state.Established?
      modifies this, buf, buf.mem
      ensures OnlyWindow(old(buf.mem[..]), buf.mem[..], buf.base)
      ensures Layout()
      ensures View() == if failed then TcpModel.Reset(old(View()))
                        else TcpModel.MaybeClose(TcpModel.DataToGuest(old(View()), recv, tso, now))
    {
      if failed {
        Reset();
      } else {
        Refill(recv, tso, now);
      }
    }

    method Disarm()
      requires Valid()
      modifies this`pollArmed
      ensures Valid() && View() == old(View()).(t := old(Record()).(pollArmed := false))
    {
      pollArmed := false;
    }

    /** A poll completion on the flow's host socket. */
    method SocketReady(pollErr: bool, pollHup: bool, sockErr: bool, recv: Recv, tso: bool, now: nat)
      requires Valid() && gone.None?
      modifies this, buf, buf.mem
      ensures OnlyWindow(old(buf.mem[..]), buf.mem[..], buf.base)
      ensures Valid() && View() == HandleReady(old(View()), pollErr, pollHup, sockErr, recv, tso, now)
    {
      ReadyKeeps(View(), pollErr, pollHup, sockErr, recv, tso, now);
      Disarm();
      if state.Connecting? {
        Connected(pollErr || pollHup || sockErr);
      } else {
        Readable(pollErr || sockErr, recv, tso, now);
      }
    }

    method FlushAck()
      requires Layout()
      modifies this`ackDeferred, this`io
      ensures View() == TcpModel.FlushAck(old(View()))
    {
      if ackDeferred {
        ackDeferred := false;
        SendControl(ACK);
      }
    }

    /** An old sequence number, so that the guest tells its window. */
    method SendProbe()
      requires Layout()
      modifies this`io
      ensures View() == TcpModel.SendProbe(old(View()))
    {
      WriteTap(Segment(Wrap32(seqUna - 1), seqFromGuest, ACK, [], [], None, |io.fromHost| - buf.len - 1));
    }

    method StartOver(now: nat)
      requires Valid()
      modifies this`sentUnacked, this`dupAcks, this`lastProgress
      ensures Valid() && View() == Rewind(old(View()), now)
    {
      ReplaceRecord(View(), Rewind(View(), now).t, 0);
      sentUnacked := 0;
      dupAcks := 0;
      lastProgress := now;
    }

    /** Everything in flight counts as lost and goes out again. */
    method Retransmit(recv: Recv, tso: bool, now: nat)
      requires Valid() && gone.None? && sentUnacked > 0
      modifies this, buf, buf.mem
      ensures OnlyWindow(old(buf.mem[..]), buf.mem[..], buf.base)
      ensures Layout() && View() == TcpModel.DataToGuest(Rewind(old(View()), now), recv, tso, now)
    {
      StartOver(now);
      DataToGuest(recv, tso, now);
    }

    method Stale(recv: Recv, tso: bool, now: nat)
      requires Valid() && gone.None?
      modifies this, buf, buf.mem
      ensures OnlyWindow(old(buf.mem[..]), buf.mem[..], buf.base)
      ensures Layout() && View() == HandleStale(old(View()), recv, tso, now)
    {
      if sentUnacked > 0 {
        Retransmit(recv, tso, now);
      } else if hostFin.Sent? {
        lastProgress := now;
        SendControl(FIN_ACK);
      } else if guestWindow == 0 && state.Established? {
        lastProgress := now;
        SendProbe();
      }
    }

    /** Timer-driven maintenance of a flow that is due. */
    method Due(cutoff: nat, recv: Recv, tso: bool, now: nat)
      requires Valid() && gone.None?
      modifies this, buf, buf.mem
      ensures OnlyWindow(old(buf.mem[..]), buf.mem[..], buf.base)
      ensures Layout() && View() == HandleDue(old(View()), cutoff, recv, tso, now)
    {
      FlushKeeps(View());
      FlushAck();
      if lastProgress < cutoff {
        Stale(recv, tso, now);
      }
    }

    /** One timer tick; nothing happens before the clock has run for one timeout. */
    method Tick(recv: Recv, tso: bool, now: nat)
      requires Valid() && gone.None?
      modifies this, buf, buf.mem
      ensures OnlyWindow(old(buf.mem[..]), buf.mem[..], buf.base)
      ensures Valid() && View() == HandleTimer(old(View()), recv, tso, now)
    {
      TimerKeeps(View(), recv, tso, now);
      if now >= RTO && TimerDueNow(now - RTO) {
        Due(now - RTO, recv, tso, now);
      }
    }

    /** Any event of the flow: one step of the model, which touches no memory but the flow's ring. */
    method Handle(e: Event, tso: bool)
      requires Valid() && gone.None?
      modifies this, buf, buf.mem
      ensures OnlyWindow(old(buf.mem[..]), buf.mem[..], buf.base)
      ensures Valid() && View() == Step(old(View()), tso, e)
    {
      match e
      case FromGuest(h, payload, accept, recv, now) => FromGuest(h, payload, accept, recv, tso, now);
      case SocketReady(pollErr, pollHup, sockErr, recv, now) => SocketReady(pollErr, pollHup, sockErr, recv, tso, now);
      case PollFailed =>
        ResetKeeps(View());
        Reset();
      case TimerTick(recv, now) => Tick(recv, tso, now);
    }

    /** Whether the timer picks this flow. */
    predicate TimerDueNow(cutoff: nat)
      reads this, buf
      ensures TimerDueNow(cutoff) <==> TimerDue(Record(), cutoff)
    {
      ackDeferred
      || (lastProgress < cutoff && (sentUnacked > 0 || hostFin.Sent? || (guestWindow == 0 && state.Established?)))
    }
  }

  lemma AdvanceParts(t: Tcp, advance: nat, now: nat, acked: Tcp)
    requires t.sentUnacked <= |t.queue| && 0 < advance <= MaxAdvance(t)
    requires acked == AckData(t, Min(advance, t.sentUnacked), now)
    ensures Advance(t, advance, now) == if advance > t.sentUnacked then AckFin(acked) else acked
  {
  }

  ghost function Taken(c: Conn, payload: seq<byte>, n: nat, defer: bool): Conn
    requires n <= |payload|
  {
    var c1 := TcpModel.TakePayload(c, payload, n);
    if defer then c1.(t := c1.t.(ackDeferred := true)) else c1
  }

  /** The next `len` unsent bytes, as frames. */
  ghost function FramesOf(c: Conn, len: nat, tso: bool): seq<Segment>
    requires 0 < len && c.t.sentUnacked + len <= |c.t.queue| && c.t.guestMss > 0
  {
    Cut(c.t.queue[c.t.sentUnacked..c.t.sentUnacked + len], FramingOf(c, len, tso), SendOffset(c))
  }

  ghost function Counted(c: Conn, len: nat, now: nat): Conn {
    c.(t := c.t.(sentUnacked := c.t.sentUnacked + len, lastProgress := now))
  }

  lemma BurstParts(c: Conn, budget: nat, len: nat, tso: bool, now: nat)
    requires c.t.sentUnacked < |c.t.queue| && budget > 0 && c.t.guestMss > 0 && len == SendLen(c.t, budget)
    ensures TcpModel.SendBurst(c, budget, tso, now) == Counted(Emit(c, FramesOf(c, len, tso)), len, now)
  {
  }

  /** One frame of `len` held bytes from `from` on. */
  method FrameAt(buf: RingBuffer, from: nat, len: nat, seqno: u32, how: Framing, at: int) returns (seg: Segment)
    requires buf.Valid() && from + len <= buf.len && seqno == Wrap32(how.base + at)
    ensures seg == DataSegment(how, buf.queue[from..from + len], at)
  {
    var payload, payload2 := buf.Slices(from, len);
    seg := Segment(seqno, how.ackno, ACK, [], payload + payload2, how.gso, at);
  }

  /** `segs` is what was sent of `all`; the bytes from `from` on are left. */
  ghost predicate Sending(
    segs: seq<Segment>, all: seq<Segment>, queue: seq<byte>, from: int, end: int, how: Framing, at: int)
  {
    0 <= from <= end <= |queue| && how.chunk > 0 && all == segs + Cut(queue[from..end], how, at)
  }

  /** One turn of the send loop. */
  method NextFrame(
    buf: RingBuffer, ghost segs: seq<Segment>, ghost all: seq<Segment>, sent: nat, off: nat, sendLen: nat,
    seqno: u32, how: Framing, at: int)
    returns (seg: Segment, next: nat)
    requires buf.Valid() && off < sendLen && sent + sendLen <= buf.len && seqno == Wrap32(how.base + at)
    requires Sending(segs, all, buf.queue, sent + off, sent + sendLen, how, at + off)
    ensures off < next <= sendLen
    ensures Sending(segs + [seg], all, buf.queue, sent + next, sent + sendLen, how, at + next)
  {
    var len := Min(how.chunk, sendLen - off);
    WrapAdd(how.base + at, off);
    seg := FrameAt(buf, sent + off, len, Wrap32(seqno + off), how, at + off);
    next := off + len;
    SendingNext(segs, all, buf.queue, sent + off, sent + next, sent + sendLen, how, at + off, at + next);
  }

  /** The send loop: the frames that carry the `sendLen` bytes behind the first `sent`, straight from the ring. */
  method Frames(buf: RingBuffer, sent: nat, sendLen: nat, seqno: u32, how: Framing, at: int)
    returns (segs: seq<Segment>)
    requires buf.Valid() && sent + sendLen <= buf.len && how.chunk > 0 && seqno == Wrap32(how.base + at)
    ensures segs == Cut(buf.queue[sent..sent + sendLen], how, at)
  {
    segs := [];
    var off := 0;
    ghost var all := Cut(buf.queue[sent..sent + sendLen], how, at);
    while off < sendLen
      invariant 0 <= off <= sendLen
      invariant Sending(segs, all, buf.queue, sent + off, sent + sendLen, how, at + off)
    {
      var seg, next := NextFrame(buf, segs, all, sent, off, sendLen, seqno, how, at);
      segs := segs + [seg];
      off := next;
    }
    SendingDone(segs, all, buf.queue, sent + sendLen, how, at + off);
  }

  /** One turn of the send loop takes the first frame off what is left. */
  lemma SendingNext(
    segs: seq<Segment>, all: seq<Segment>, queue: seq<byte>, from: int, next: int, end: int, how: Framing, at: int,
    nextAt: int)
    requires Sending(segs, all, queue, from, end, how, at) && from < end
    requires next == from + Min(how.chunk, end - from) && nextAt == at + (next - from)
    ensures Sending(segs + [DataSegment(how, queue[from..next], at)], all, queue, next, end, how, nextAt)
  {
    assert queue[from..end][..next - from] == queue[from..next];
    assert queue[from..end][next - from..] == queue[next..end];
  }

  lemma SendingDone(segs: seq<Segment>, all: seq<Segment>, queue: seq<byte>, end: int, how: Framing, at: int)
    requires Sending(segs, all, queue, end, end, how, at)
    ensures segs == all
  {
    assert queue[end..end] == [];
  }
}
